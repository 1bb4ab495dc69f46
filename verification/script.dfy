/**
 * The generated simulator script as a sequence of abstract statements. Each
 * constructor keeps only the fields the generator varies; the fixed template
 * text around them is not modelled.
 */
module Script {
  import opened Outcomes

  /** One "NAME:LayerMapInfo" block of the GDSII import. */
  datatype LayerMapEntry = LayerMapEntry(layerNum: string, destLayer: string)

  /** One "entry:=" of the import's OrderMap. */
  datatype OrderEntry = OrderEntry(order: int, layer: string)

  datatype Statement =
    | Banner                                    // comment header (its timestamp is not modelled)
    | StartEnvironment                          // import ScriptEnv, Initialize, RestoreWindow
    | NewProject
    | SetActiveProject(project: string)
    | RenameProject(project: string)            // cwd prefix not modelled
    | InsertDesign(design: string, mode: string)
    | SetActiveDesign(design: string)
    | SetActiveEditor
    | ImportGDSII(fileName: string, layerMap: seq<LayerMapEntry>, orderMap: seq<OrderEntry>)
    | GetBoundingBox                            // bound_box = oEditor.GetModelBoundingBox()
    | MoveToOrigin(selection: string)           // Move by the runtime bound_box corner
    | CreateBox(name: string, material: string) // box sized from the runtime bound_box
    | Move(selection: string, x: string, y: string, z: string)
    | ThickenSheet(selection: string, thickness: string)
    | AssignMaterial(selection: string, material: string)
    | Unite(selection: string)
    | Subtract(blankParts: string, toolParts: string, keepOriginals: bool)
    | GetModule(moduleName: string)
    | AssignMatrix(name: string, sources: seq<string>)

  /** What one call appends to the script, and the exception it raised after that, if any. */
  datatype Emission = Emission(stmts: seq<Statement>, error: Option<Error>)

  /**
   * The LayerMap and OrderMap of the import, built by the loop that counts
   * `counter` up from its start value, one entry per layer id.
   */
  function LayerMapFrom(layers: seq<string>, counter: int): (r: (seq<LayerMapEntry>, seq<OrderEntry>))
    ensures |r.0| == |layers| && |r.1| == |layers|
    ensures forall i :: 0 <= i < |layers| ==>
      r.0[i] == LayerMapEntry(layers[i], "Signal" + layers[i]) &&
      r.1[i] == OrderEntry(counter + i, "Signal" + layers[i])
  {
    if layers == [] then ([], [])
    else
      var rest := LayerMapFrom(layers[1..], counter + 1);
      ([LayerMapEntry(layers[0], "Signal" + layers[0])] + rest.0,
       [OrderEntry(counter, "Signal" + layers[0])] + rest.1)
  }

  /** oEditor.ImportGDSII with one destination group "Signal<layer>" per layer, ordered 0..n-1. */
  function ImportStatement(fileName: string, layers: seq<string>): (s: Statement)
    ensures s.ImportGDSII? && s.fileName == fileName
    ensures |s.layerMap| == |layers| && |s.orderMap| == |layers|
    ensures forall i :: 0 <= i < |layers| ==>
      s.layerMap[i] == LayerMapEntry(layers[i], "Signal" + layers[i]) &&
      s.orderMap[i] == OrderEntry(i, "Signal" + layers[i])
  {
    var maps := LayerMapFrom(layers, 0);
    ImportGDSII(fileName, maps.0, maps.1)
  }
}
