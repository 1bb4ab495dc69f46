# Maxwell script generators: a verified model of their bookkeeping

The repository writes scripts for the Maxwell 3D electromagnetic simulator
from a GDSII chip layout. It has three near-duplicate generators:

- `maxpy.Maxwell` (with the solver-output parser `maxpy.maxParse`);
- `maxwell.Maxwell` with its helpers `MaxInit`, `MaxSetup` and `MaxGeo`;
- `Maxwell_Editor`.

Each generator does four jobs:

1. It names the imported elements `Signal<layer>_<k>`, using one counter shared by all layers that starts at 1.
2. It keeps a table of layer conventions, layer -> (height, thickness).
3. It turns a selection of signal names into simulator statements, the selection being the comma join of the names.
4. It orchestrates import, zeroing, thickening, lifting and material assignment.

This project models those jobs in Dafny. A script is a sequence of abstract
`Statement`s that keep only the meaningful fields: the selection, the
vector, the thickness, the material, and the layer and order maps. Python
dicts are insertion-ordered association lists (`Dicts.Dict`). Assigning to
a present key replaces it in place; assigning a new key appends it.

A method that appends to the script file is a function returning an
`Emission`: the statements appended, and the exception raised afterwards
if there was one. Statements written before an exception stay in the file,
and the model keeps them too.

The modules follow the program:

- `Naming` holds the shared namer. `DeclareAppend` is maxpy's `add_layers`. `DeclareReset` is maxwell.py's `GDSLayers` and the editor's constructor.
- `Conventions` holds the layer table.
- `Geo` holds the statement emitters. maxpy and `MaxGeo` share the same code.
- `Maxpy`, `MaxParse`, `MaxwellScript` and `MaxwellEditor` model the four classes.

The three variants differ in ways the model keeps apart:

- maxpy appends to a layer's existing list. The other two reset the list whenever the layer is declared again.
- maxpy and `MaxGeo` skip a move by `['0','0','0']`. The editor moves anyway.
- The editor's `move` and `thicken` raise on an empty selection, and its `assign_material` returns nothing. maxpy writes the statement whatever the selection.
- maxpy and maxwell.py double the backslashes of the GDS path. The editor inserts the path verbatim.

The variants treat an empty selection three different ways (above); none
validates counts or units.

## Model

| member | source | states |
|---|---|---|
| Naming.OrdinalOfName | maxpy.py:67-70 | A name `Signal<layer>_<k>` gives back k as the number after its last underscore, whatever the layer text holds. |
| Naming.NamesDiffer | maxpy.py:63-71 | Signals minted with different counter values get different names. |
| Naming.MintedNamesAt | maxpy.py:63-71 | The j-th element named from counter c is Signal(layer of the j-th element, c + j). The counter is shared by all layers. |
| Naming.MintLoopIsMintMany | maxpy.py:64-71 | Running the per-element naming loop k times appends one block of k consecutive signals to the layer's list and to the flat list, and advances the counter by k. A count of 0 or less changes nothing. |
| Naming.MintAfterMintMany | maxpy.py:64-71 | One more pass of the loop extends the block by the signal carrying the next counter value. |
| Naming.LookupMintMany | maxpy.py:67-70 | A positive count extends its layer's list by the block, creating the list when absent. Every other layer keeps its list. |
| Naming.KeysMintMany | maxpy.py:67-70 | A layer seen for the first time goes at the end of the dict order. A known layer keeps its place. |
| Naming.DeclareAppend | maxpy.py:63-71 | add_layers advances the counter by the total element count. It extends the flat list by exactly the minted names, in generation order. |
| Naming.LookupDeclareAppend | maxpy.py:63-71 | After add_layers, a layer's list is its old list followed by every name minted for it. The layer is present iff it was present before or received a name. |
| Naming.FreshAppendKeys | maxpy.py:63-71 | From a fresh start, add_layers lists exactly the layers with a positive count, in dict order. A layer with count 0 gets no key. |
| Naming.DeclareReset | maxwell.py:74-81 | GDSLayers advances the counter by the total element count and extends the flat list by every minted name, repeated layers included. |
| Naming.LookupDeclareReset | maxwell.py:75-80 | After the reset style, a declared layer holds exactly the block of its last declaration. An undeclared layer keeps what it had. |
| Naming.NumberedNamesDistinct | maxpy.py:27 | When every flat-list entry carries its position plus 1 as ordinal, the entries and their names are pairwise distinct. |
| Naming.DeclareKeepsNumbered | maxwell.py:35 | The counter is never reset, so both declaration styles keep every flat-list entry numbered by its position. |
| Naming.MintManyListed | maxpy.py:64-70 | A batch adds its block once to the flat list and once to the per-layer lists, as multisets. |
| Naming.PutFlatten | maxwell.py:76 | Replacing a layer's list takes the old list out of the multiset of listed names and puts the new one in. |
| Naming.DeclareAppendPartitioned | maxpy.py:63-71 | add_layers keeps the flat list and the per-layer lists equal as multisets. Every name sits in one layer list and vice versa. |
| Naming.AppendNamesListedOnce | maxpy.py:63-71 | With add_layers, every minted name occurs exactly once across all per-layer lists. |
| Naming.DeclareResetSubPartitioned | maxwell.py:74-81 | The reset style can drop names from the per-layer lists but never lists a name the flat list lacks. |
| Naming.DeclareAppendIsDict | maxpy.py:67-70 | add_layers keeps the layer dict free of duplicate keys. |
| Naming.DeclareResetIsDict | maxwell.py:76-79 | GDSLayers keeps the layer dict free of duplicate keys. |
| Naming.FreshResetLayout | Maxwell_Editor.py:14-23 | From a fresh start with distinct layer ids, the reset style lists every declared layer once, in order, count 0 included. Its lists concatenated are exactly the minted names, in minting order. |
| Conventions.DefaultsAgree | Maxwell_Editor.py:5-9 | The default table has the five conventions. The int-keyed table (maxpy, maxwell.py) and the str-keyed table (editor) agree entry by entry. |
| Conventions.LookupOverride | maxpy.py:73-75 | After the overrides, a layer named by some triple has its last triple's convention. Any other layer keeps its entry or stays absent. |
| Conventions.KeysOverride | maxpy.py:73-75 | Known layers keep their order at the front of the table. New layers come after them. |
| Conventions.KeysOverridePresent | maxpy.py:73-75 | Overriding only known layers leaves the key order unchanged. |
| Conventions.OverrideIsDict | maxpy.py:73-75 | Overriding keeps the table free of duplicate keys. |
| Conventions.OverrideIdempotent | maxpy.py:73-75 | Applying the same triples twice gives the same table as applying them once. |
| Conventions.LastNamed | maxpy.py:74-75 | Every layer some triple names has a last convention. |
| Text.StrRoundTrip | maxpy.py:67 | int(str(i)) == i: the counter printed in a name loses nothing. |
| Text.StrCharacters | maxpy.py:67 | str(i) holds only digits and '-', so it never contains ',' or '_'. |
| Text.SplitOfJoin | maxpy.py:183-193 | A comma-joined selection of comma-free names splits back into those names. |
| Text.LStripSpec | maxpy.py:387 | lstrip removes exactly the leading run of the character. What remains is a suffix that does not start with it. |
| Text.IndexOf | maxpy.py:386 | The index of the first ':', or the length where Python raises ValueError. |
| Text.EscapeRoundTrip | maxpy.py:109 | Reading the doubled-backslash path back as a Python literal gives the original path. |
| Text.EscapeLength | maxwell.py:229 | Escaping changes exactly the paths that contain a backslash, and only makes them longer. |
| Script.ImportStatement | maxpy.py:86-104 | The import has one LayerMapInfo per layer, (layer, "Signal"+layer), and one OrderMap entry per layer with orders 0..n-1 in the same order. |
| Geo.Move | maxpy.py:195-213 | The vector ['0','0','0'] writes nothing. A vector shorter than 3 raises IndexError. Any other vector writes one Move of the comma join with its first three entries verbatim. |
| Geo.LiftSkipsOnlyZero | maxwell.py:262-264 | The lift by (0, 0, height) never raises, and writes nothing exactly when the height is "0". |
| Geo.SelectionSplits | maxwell.py:315-330 | A selection of comma-free names reads back as those names. |
| Geo.IntNamesSplit | maxpy.py:178-193 | Names of int-layer signals contain no comma, so their selection always reads back as the same names. |
| Geo.Thicken | maxpy.py:178-193 | thicken writes one ThickenSheet with the thickness verbatim, whose selection splits back into exactly the given names when they are non-empty and comma-free. An empty list is written too (maxwell.py:315-330 is the same code). |
| Geo.AssignTo | maxpy.py:216-232 | assignMaterial writes one AssignMaterial with the material, whose selection splits back into exactly the given names when they are non-empty and comma-free. There is no guard (maxwell.py:332-348 is the same code). |
| Geo.Covered | maxpy.py:123-126 | The number of leading layers, in dict order, that have a convention. The next layer, if any, lacks one. |
| Geo.ForEachLayerSpec | maxpy.py:124-126 | The per-layer loop raises KeyError iff some layer lacks a convention. It writes the steps of every layer before the first such one, in dict order. |
| Maxpy.Initialize | maxpy.py:43-60 | The header is the banner and environment start, then a new project, its rename after `project`, the design inserted in the object's mode, and that design activated, in that order, with the 3D editor last. |
| Maxpy.AddLayers | maxpy.py:63-71 | The counter grows by the element count and the flat list by the minted names. The conventions and the GDS path are untouched. |
| Maxpy.NewIsValid | maxpy.py:20-36 | A new object starts with numbered, partitioned signals and duplicate-free tables. |
| Maxpy.AddLayersKeepsValid | maxpy.py:63-71 | add_layers preserves that invariant. |
| Maxpy.AddLayerInfo | maxpy.py:73-75 | addLayerInfo leaves the names untouched and gives every layer it names a convention. |
| Maxpy.AddLayerInfoKeepsValid | maxpy.py:73-75 | addLayerInfo preserves the invariant. |
| Maxpy.ImportGDSHeader | maxpy.py:77-123 | importGDS first writes one import. Its path unescapes to the GDS path, and its maps list each key of `signals` in dict order with orders 0..n-1. zero() follows. |
| Maxpy.ImportGDSBody | maxpy.py:123-127 | importGDS raises KeyError iff a layer lacks a convention. Otherwise it writes the import, zero(), each layer's thicken and lift in dict order, and one "Perfect Conductor" assignment over allSignals. |
| Maxpy.Zero | maxpy.py:131-176 | zero() reads the bounding box, moves allSignals to the origin (the selection splits back into exactly those names when they are non-empty and comma-free), and then creates the silicon box "substrate". |
| Maxpy.PlaceLayerShape | maxpy.py:124-126 | A layer's placement is its ThickenSheet by the thickness, then a Move by (0, 0, height) unless the height is "0". |
| Maxpy.SelectionsReadBack | maxpy.py:178-246 | thicken, assignMaterial and unite of int-layer signals select exactly those signals' names. |
| MaxParse.RowsOk | maxpy.py:388-398 | The loop over the excitations fails only with IndexError, and succeeds iff each of its rows is readable. |
| MaxParse.ReadableIff | maxpy.py:388-395 | All n rows are readable iff the export has 9 + 2n lines and every row line has more than n fields. |
| MaxParse.UpdateOk | maxpy.py:381-398 | update fails only with IndexError or ValueError. It raises ValueError iff line 2 exists without a ':'. It succeeds iff there are more than 5 lines, line 2 has a ':', and every row is readable. |
| MaxParse.RowAt | maxpy.py:393-395 | A row's dict maps the c-th excitation to field 1 + c, when no later column names the same excitation (a later column wins). |
| MaxParse.RowKeys | maxpy.py:393-395 | A row's dict has no key that is not an excitation. |
| MaxParse.RowsLookup | maxpy.py:388-398 | After the loop, the j-th excitation's rows are the dicts of capacitance line 6 + j and coupling line 9 + n + j, when no later excitation repeats its name (a later pass overwrites). |
| MaxParse.RowsKeep | maxpy.py:397-398 | After the loop, a key no excitation names keeps its earlier rows, repeated excitation names or not. |
| MaxParse.RowsHas | maxpy.py:397-398 | After the loop, every excitation has a capacitance and a coupling row. |
| MaxParse.RowsEntries | maxpy.py:388-398 | The i-th excitation's rows hold field 1 + c of line 6 + i (capacitance) and of line 9 + n + i (coupling) for the c-th excitation, i and c each being the last place its name occurs. |
| MaxParse.UpdateEntries | maxpy.py:386-398 | After a successful update, capacitance[ex_i][ex_c] is field 1 + c of line 6 + i, and coupling[ex_i][ex_c] is field 1 + c of line 9 + n + i, for i and c each the last place its excitation name occurs. |
| MaxParse.UpdateKeeps | maxpy.py:397-398 | Rows of excitations this export does not name are kept from earlier reads, repeated names in the export or not. |
| MaxParse.UpdateUnits | maxpy.py:386 | A successful update whose line 2 is `a:xu`, with no ':' in a, stores the units u. |
| MaxParse.OpenKeys | maxpy.py:374-379 | A parser opened on an export has a capacitance and a coupling row exactly for the excitations line 5 names, and its units from line 2. |
| MaxParse.UnitsAfterColon | maxpy.py:386 | A units line `a:xu`, with no ':' in a, gives the units u. |
| MaxParse.FieldsOfRow | maxpy.py:389-390 | A tab followed by tab-separated, tab-free fields reads back as exactly those fields. |
| MaxwellScript.New | maxwell.py:20-38 | The constructor writes the header, activates Project1, and starts with no GDS file, no design, no names, and nothing handed to MaxSetup. |
| MaxwellScript.SetGDS | maxwell.py:42-43 | The file to import is the given name followed by ".gds". Nothing else changes. |
| MaxwellScript.SetMode | maxwell.py:48-49 | setMode records the mode and changes nothing else; later design inserts use it. |
| MaxwellScript.SetProject | maxwell.py:56-57 | The project is renamed with one RenameProject statement and the name is recorded. |
| MaxwellScript.InsertNewDesign | maxwell.py:60-61 | insertDesign always inserts the design and records it as open. |
| MaxwellScript.SetDesignInserts | maxwell.py:63-67 | setDesign inserts the design iff none is open yet. |
| MaxwellScript.SetDesignsInsertOnce | maxwell.py:63-67 | Over any sequence of setDesign calls, the design is inserted at most once, exactly when none was open. Every name is activated and the last one is the open design. |
| MaxwellScript.GDSLayers | maxwell.py:74-83 | GDSLayers hands MaxSetup the namer's dict and flat list. The counter and the flat list grow by the minted names. |
| MaxwellScript.AddLayerInfoFails | maxwell.py:85-87 | As written, a single triple raises AttributeError. The corrected version gives the layer the convention. |
| MaxwellScript.AddLayerInfo | maxwell.py:85-87 | The corrected addLayerInfo changes only MaxSetup's conventions: the names, MaxSetup's signal lists and every other field stay as they were. |
| MaxwellScript.AddLayerInfoOverrides | maxwell.py:85-87 | In the corrected version, last triple wins and other layers keep their conventions. |
| MaxwellScript.NewIsValid | maxwell.py:20-38 | A new object satisfies the invariant. |
| MaxwellScript.CallsKeepValid | maxwell.py:42-87 | Every state-changing call preserves the invariant. MaxSetup holds Maxwell's dict and list, or nothing before GDSLayers. Names are numbered and duplicate-free tables are kept. |
| MaxwellScript.ImportGDSSpec | maxwell.py:69-72 | importGDS fails its assertion without a GDS file, and raises TypeError before GDSLayers. Otherwise it writes one import of the escaped path, mapping the layers in dict order with orders 0..n-1. |
| MaxwellScript.SetGDSThenImport | maxwell.py:197-240 | After setGDS and GDSLayers, importGDS writes one import whose path reads back as name + ".gds". |
| MaxwellScript.ImportBeforeLayers | maxwell.py:206 | Importing before GDSLayers raises TypeError even with a file set. |
| MaxwellScript.ExampleLayer11 | example.py:17 | In the usage example, layer 11's two elements are Signal11_6 and Signal11_7. |
| MaxwellScript.ExampleNames | example.py:17 | Those two signals are spelled "Signal11_6" and "Signal11_7". |
| MaxwellScript.RepeatedLayerKeepsLast | maxwell.py:76-80 | With [(5, 2), (5, 1)], layer 5 keeps only Signal5_3, while the flat list holds all three names. |
| MaxwellScript.SetupZero | maxwell.py:242-260 | MaxSetup.zero reads the bounding box, then raises TypeError iff GDSLayers has not handed it a flat list. Otherwise it moves that list to the origin, by a selection that splits back into exactly its names when they are non-empty and comma-free. |
| MaxwellScript.PrepareSpec | maxwell.py:90-98 | prepare raises TypeError after reading the bounding box when GDSLayers has not run, and KeyError when a layer lacks a convention. Otherwise it writes zero over the flat list, every thicken, every lift, and one "perfect conductor" assignment of the concatenated per-layer lists. |
| MaxwellScript.AssignCoversAll | maxwell.py:271-273 | From a fresh start with distinct layer ids, initialAssign selects every name once, in naming order. |
| MaxwellScript.AssignWithinAll | maxwell.py:271-273 | With repeated layers, initialAssign may miss names but never selects one that was not minted. |
| MaxwellEditor.New | Maxwell_Editor.py:3-23 | The editor starts from the default str-keyed conventions. all_signals is the concatenation of the per-layer lists in dict order. |
| MaxwellEditor.NewLayout | Maxwell_Editor.py:14-23 | With distinct layer ids, all_signals is every name minted, in order. The j-th has counter j + 1, the names are distinct, and the dict lists the layers in the given order. |
| MaxwellEditor.NewLookup | Maxwell_Editor.py:14-19 | Each listed layer holds the names of its last listing. Unlisted layers are absent. |
| MaxwellEditor.RepeatedLayerDropsNames | Maxwell_Editor.py:15-23 | [("5", 2), ("5", 1)] leaves the dict and all_signals with Signal5_3 alone, though three elements were named. |
| MaxwellEditor.AddConventions | Maxwell_Editor.py:26-33 | add_conventions touches only the conventions. |
| MaxwellEditor.LastGivenIsLast | Maxwell_Editor.py:32-33 | The last str triple naming a layer is the last triple for that layer. |
| MaxwellEditor.AddConventionsLookup | Maxwell_Editor.py:26-33 | The last triple for a layer wins. Other layers keep their convention or stay absent. |
| MaxwellEditor.ImportLayers | Maxwell_Editor.py:36-77 | import_layers maps each listed pair, repeats included, in list order with orders 0..n-1, and uses the file name verbatim. |
| MaxwellEditor.ImportRepeatsLayers | Maxwell_Editor.py:45-57 | A layer listed twice is mapped twice, though the dict holds it once. |
| MaxwellEditor.ImportKeepsBackslashes | Maxwell_Editor.py:68 | A path with a backslash reaches the import without the escaping the other variants apply. |
| MaxwellEditor.Move | Maxwell_Editor.py:79-106 | move raises "No signals given" iff the selection is empty, with all_signals selected when `all` is set. Otherwise it returns one Move of the comma join with dx, dy, dz verbatim. |
| MaxwellEditor.Thicken | Maxwell_Editor.py:108-131 | thicken raises iff the selection is empty. Otherwise it returns one ThickenSheet with the thickness. |
| MaxwellEditor.AssignMaterialTo | Maxwell_Editor.py:133-159 | assign_material returns nothing iff the selection is empty. Otherwise it returns one AssignMaterial of the comma join. |
| MaxwellEditor.ZeroVectorStillMoves | Maxwell_Editor.py:90-104 | The editor moves by ["0","0","0"], where maxpy and MaxGeo write nothing. |
| MaxwellEditor.EmptySelection | Maxwell_Editor.py:90-106 | On an empty selection, move and thicken raise and assign_material returns nothing, while maxpy's thicken still writes. |
| MaxwellEditor.NothingToSelect | Maxwell_Editor.py:17 | An editor built with no positive count has nothing to select, even with `all`. |
| MaxwellEditor.NoCountsNoNames | Maxwell_Editor.py:17 | Counts of 0 or less name no element. |
| MaxwellEditor.SubPartitionedFresh | Maxwell_Editor.py:21-23 | all_signals never holds more elements than were named. |
| MaxwellEditor.WholeModelSelections | Maxwell_Editor.py:242-255 | subtract cuts all signals out of the "vacuum" box and keeps the originals. With comma-free layer names, the subtract and zero selections read back as all_signals. |

## Left out

- File I/O: the file appends, `clear`, and reading the solver export. Scripts are sequences of statements and the export is a sequence of lines.
- Timestamps (`datetime.now()`) and the working-directory project path (`os.getcwd()`), because they depend on the environment. The rename statement keeps only the project name.
- Template whitespace and fixed boilerplate: colours, transparency, solver constants, `CreateBox` sizes and the `bound_box[...]` expressions. This text is evaluated by the simulator, so `zero` is `GetBoundingBox` plus `MoveToOrigin(selection)`.
- maxwell_scripter.py, an interactive `input()` driver over the editor, and example.py, a usage script. Only example.py's layer list is used, in `MaxwellScript.ExampleLayer11`.
- The commented-out classes at the end of maxpy.py and the empty `MaxSim`, which are not live code.
- maxpy's `voltage`, `rename`, `problemRegion`, `setup` and `analyze`, and the editor's `make_substrate` and `make_region`. They write fixed templates with their parameters pasted in, and there is no bookkeeping in them. The editor's `make_vacuum` is kept only as the box that `subtract` cuts from.
- Maxpy.Unite and Maxpy.Matrix: modelled as the statements they write, without a contract of their own. Unite's selection is covered by `Maxpy.SelectionsReadBack`; Matrix only pastes its arguments into a template.
- maxwell.py's `setFile` and `firstLines`, the file name field, and `MaxInit.get_creation_info`: these are file and timestamp handling.
- The editor's `int(components)` conversion: counts are ints in the model, so the ValueError on a non-numeric string is not modelled. Layer ids are strs as the editor requires; a non-str layer id would raise TypeError in `'Signal'+layer`.
- MaxParse.Update: on an exception it returns the error without the partially updated state. Python assigns `units` and the earlier rows before raising.
- Naming.FreshResetLayout and MaxwellEditor.NewLayout: assume distinct layer ids. For repeated ids only the weaker `DeclareResetSubPartitioned` and the concrete examples are proved.
- Geo.Move: the Python `move` returns -1 for the zero vector (maxpy.py:199-200, maxwell.py:299-300). The model keeps only the effect, that nothing is written; the return value is not modelled because no caller reads it.
- Maxpy.New: the constructor's default `mode='Electrostatic'` (maxpy.py:20) is not modelled. The model always takes the mode as an argument.
- MaxwellScript.New and Maxpy.Initialize: the banner slices the time as `td[td.index(' ')+1 : td.index('.')]` (maxpy.py:46, maxwell.py:131). When the clock's microsecond is 0, `str(datetime.now())` has no '.', and the header raises ValueError. The clock is not modelled, so MaxwellScript.New promises no error and Maxpy.Initialize cannot fail.
- Integers are unbounded, as Python's are, so no wrap-around arises.

## Findings

| source | as written | input that shows it | evidently intended | confidence | as-written member | corrected member |
|---|---|---|---|---|---|---|
| maxwell.py:85-87 | `addLayerInfo` writes `self.layerGuide[layer]`, but `Maxwell` has no `layerGuide`; the table lives on `MaxSetup` (maxwell.py:185). Any non-empty list raises AttributeError. | `addLayerInfo([(5, '0', '1um')])` | store the convention in `self.setup.layerGuide`, the table that `prepare` uses | high; not executed | MaxwellScript.AddLayerInfoAsWritten, shown by MaxwellScript.AddLayerInfoFails | MaxwellScript.AddLayerInfo, with MaxwellScript.AddLayerInfoOverrides |
