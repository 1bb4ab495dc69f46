/**
 * maxpy.maxParse: reads the capacitance and coupling matrices the solver
 * exports. The export is a list of lines; line 2 carries the units after
 * its first ':', line 5 the n excitation names, lines 6..6+n-1 the
 * capacitance rows and lines 9+n..9+2n-1 the coupling rows, every field
 * separated by tabs, each row led by its excitation's name.
 */
module MaxParse {
  import opened Outcomes
  import opened Seqs
  import opened Text
  import opened Dicts

  /** excitation -> (excitation -> value text) */
  type Table = Dict<string, Dict<string, string>>

  /** The parser's state; the export's file name is not kept. */
  datatype Parsed = Parsed(units: string, capacitance: Table, coupling: Table)

  /** The tab-separated fields of a line, its leading tabs dropped first. */
  function Fields(line: string): seq<string> {
    Split(LStrip(line, '\t'), '\t')
  }

  /** Every line of the export split into its fields. */
  function Tokenize(lines: seq<string>): (r: seq<seq<string>>)
    ensures |r| == |lines|
  {
    seq(|lines|, i requires 0 <= i < |lines| => Fields(lines[i]))
  }

  /** One row as a dict: the first k excitations, each mapped to the field after the row's leading name at its column. */
  function Row(ex: seq<string>, row: seq<string>, k: nat): Dict<string, string>
    requires k <= |ex| < |row|
  {
    if k == 0 then [] else Put(Row(ex, row, k - 1), ex[k - 1], row[k])
  }

  /** Row i of both matrices exists and holds a value for each of the n excitations. */
  predicate RowReadable(n: nat, rows: seq<seq<string>>, i: nat) {
    9 + n + i < |rows| && |rows[6 + i]| > n && |rows[9 + n + i]| > n
  }

  /** The capacitance row of excitation i, as a dict. */
  function CapRow(ex: seq<string>, rows: seq<seq<string>>, i: nat): Dict<string, string>
    requires RowReadable(|ex|, rows, i)
  {
    Row(ex, rows[6 + i], |ex|)
  }

  /** The coupling row of excitation i, as a dict. */
  function CoupRow(ex: seq<string>, rows: seq<seq<string>>, i: nat): Dict<string, string>
    requires RowReadable(|ex|, rows, i)
  {
    Row(ex, rows[9 + |ex| + i], |ex|)
  }

  /**
   * The first k passes of the outer loop over the excitations. A row line
   * past the end, or a row with fewer than n values, raises IndexError.
   */
  function Rows(ex: seq<string>, rows: seq<seq<string>>, k: nat, cap: Table, coup: Table): Result<(Table, Table)>
    requires k <= |ex|
  {
    if k == 0 then Ok((cap, coup))
    else
      match Rows(ex, rows, k - 1, cap, coup)
      case Err(e) => Err(e)
      case Ok(acc) =>
        if !RowReadable(|ex|, rows, k - 1) then Err(IndexError)
        else Ok((Put(acc.0, ex[k - 1], CapRow(ex, rows, k - 1)), Put(acc.1, ex[k - 1], CoupRow(ex, rows, k - 1))))
  }

  /** The text starting two characters after the line's first ':', None when there is no ':'. */
  function UnitsOf(line: string): Option<string> {
    var colon := IndexOf(line, ':');
    if colon == |line| then None
    else if colon + 2 <= |line| then Some(line[colon + 2..])
    else Some([])
  }

  /**
   * update(lines): units from line 2, the excitations from line 5, then both
   * matrices, merged into the ones already read (a later read of an
   * excitation replaces its row).
   */
  function Update(p: Parsed, lines: seq<string>): Result<Parsed> {
    if |lines| <= 2 then Err(IndexError)
    else
      match UnitsOf(lines[2])
      case None => Err(ValueError)
      case Some(units) =>
        if |lines| <= 5 then Err(IndexError)
        else
          var rows := Tokenize(lines);
          match Rows(rows[5], rows, |rows[5]|, p.capacitance, p.coupling)
          case Err(e) => Err(e)
          case Ok(t) => Ok(Parsed(units, t.0, t.1))
  }

  /** maxParse(fileName): a first update from an empty state. */
  function Open(lines: seq<string>): Result<Parsed> {
    Update(Parsed([], [], []), lines)
  }

  /** The loop over the rows succeeds exactly when each of its k rows is readable. */
  lemma {:induction false} RowsOk(ex: seq<string>, rows: seq<seq<string>>, k: nat, cap: Table, coup: Table)
    requires k <= |ex|
    ensures Rows(ex, rows, k, cap, coup).Err? ==> Rows(ex, rows, k, cap, coup) == Err(IndexError)
    ensures Rows(ex, rows, k, cap, coup).Ok? <==> forall i :: 0 <= i < k ==> RowReadable(|ex|, rows, i)
  {
    if k > 0 {
      RowsOk(ex, rows, k - 1, cap, coup);
    }
  }

  /** All n rows are readable exactly when there are 9 + 2n lines and every row line has more than n fields. */
  lemma ReadableIff(n: nat, rows: seq<seq<string>>)
    requires n >= 1
    ensures (forall i :: 0 <= i < n ==> RowReadable(n, rows, i)) <==>
      9 + 2 * n <= |rows| &&
      (forall i :: 6 <= i < 6 + n ==> |rows[i]| > n) &&
      (forall i :: 9 + n <= i < 9 + 2 * n ==> |rows[i]| > n)
  {
    if forall i :: 0 <= i < n ==> RowReadable(n, rows, i) {
      assert RowReadable(n, rows, n - 1);
      forall i | 6 <= i < 6 + n
        ensures |rows[i]| > n
      {
        assert RowReadable(n, rows, i - 6);
      }
      forall i | 9 + n <= i < 9 + 2 * n
        ensures |rows[i]| > n
      {
        assert RowReadable(n, rows, i - 9 - n);
      }
    }
  }

  /**
   * update fails with IndexError when the export is too short or a row is
   * missing values, and with ValueError when line 2 has no ':'; in every
   * other case it succeeds.
   */
  lemma UpdateOk(p: Parsed, lines: seq<string>)
    ensures Update(p, lines).Err? ==> Update(p, lines).error in {IndexError, ValueError}
    ensures Update(p, lines) == Err(ValueError) <==> |lines| > 2 && ':' !in lines[2]
    ensures Update(p, lines).Ok? <==>
      && |lines| > 5
      && ':' in lines[2]
      && var rows := Tokenize(lines);
         forall i :: 0 <= i < |rows[5]| ==> RowReadable(|rows[5]|, rows, i)
  {
    if |lines| > 2 {
      var colon := IndexOf(lines[2], ':');
      assert colon < |lines[2]| <==> ':' in lines[2];
      if |lines| > 5 {
        var rows := Tokenize(lines);
        RowsOk(rows[5], rows, |rows[5]|, p.capacitance, p.coupling);
      }
    }
  }

  /**
   * Column c of a row is the value for the c-th excitation when no later
   * column of the first k names the same excitation: a later column wins.
   */
  lemma {:induction false} RowAt(ex: seq<string>, row: seq<string>, k: nat, c: nat)
    requires k <= |ex| < |row| && c < k
    requires ex[c] !in ex[c + 1..k]
    ensures Lookup(Row(ex, row, k), ex[c]) == Some(row[1 + c])
  {
    LookupPut(Row(ex, row, k - 1), ex[k - 1], row[k], ex[c]);
    if c < k - 1 {
      assert ex[c + 1..k] == ex[c + 1..k - 1] + [ex[k - 1]];
      RowAt(ex, row, k - 1, c);
    }
  }

  /** A row's dict names only the excitations. */
  lemma {:induction false} RowKeys(ex: seq<string>, row: seq<string>, k: nat, key: string)
    requires k <= |ex| < |row|
    requires key !in ex[..k]
    ensures Lookup(Row(ex, row, k), key).None?
  {
    if k > 0 {
      LookupPut(Row(ex, row, k - 1), ex[k - 1], row[k], key);
      assert ex[..k - 1] == ex[..k][..k - 1];
      RowKeys(ex, row, k - 1, key);
    }
  }

  /**
   * After the first k passes, the j-th excitation, when no later one of the
   * first k repeats its name, has its capacitance row from line 6 + j and
   * its coupling row from line 9 + n + j: a later pass overwrites an
   * earlier one.
   */
  lemma {:induction false} RowsLookup(ex: seq<string>, rows: seq<seq<string>>, k: nat, cap: Table, coup: Table, j: nat)
    requires j < k <= |ex|
    requires ex[j] !in ex[j + 1..k]
    requires Rows(ex, rows, k, cap, coup).Ok?
    ensures var t := Rows(ex, rows, k, cap, coup).value;
      && RowReadable(|ex|, rows, j)
      && Lookup(t.0, ex[j]) == Some(CapRow(ex, rows, j))
      && Lookup(t.1, ex[j]) == Some(CoupRow(ex, rows, j))
  {
    var i := k - 1;
    var acc := Rows(ex, rows, i, cap, coup).value;
    LookupPut(acc.0, ex[i], CapRow(ex, rows, i), ex[j]);
    LookupPut(acc.1, ex[i], CoupRow(ex, rows, i), ex[j]);
    if j < i {
      assert ex[j + 1..k] == ex[j + 1..i] + [ex[i]];
      RowsLookup(ex, rows, i, cap, coup, j);
    }
  }

  /** After the first k passes, a key none of the first k excitations names keeps its earlier rows. */
  lemma {:induction false} RowsKeep(ex: seq<string>, rows: seq<seq<string>>, k: nat, cap: Table, coup: Table, key: string)
    requires k <= |ex|
    requires key !in ex[..k]
    requires Rows(ex, rows, k, cap, coup).Ok?
    ensures Lookup(Rows(ex, rows, k, cap, coup).value.0, key) == Lookup(cap, key)
    ensures Lookup(Rows(ex, rows, k, cap, coup).value.1, key) == Lookup(coup, key)
  {
    if k > 0 {
      var acc := Rows(ex, rows, k - 1, cap, coup).value;
      assert ex[..k - 1] == ex[..k][..k - 1];
      RowsKeep(ex, rows, k - 1, cap, coup, key);
      LookupPut(acc.0, ex[k - 1], CapRow(ex, rows, k - 1), key);
      LookupPut(acc.1, ex[k - 1], CoupRow(ex, rows, k - 1), key);
    }
  }

  /** After the first k passes, every excitation among the first k has both rows. */
  lemma {:induction false} RowsHas(ex: seq<string>, rows: seq<seq<string>>, k: nat, cap: Table, coup: Table, key: string)
    requires k <= |ex|
    requires key in ex[..k]
    requires Rows(ex, rows, k, cap, coup).Ok?
    ensures Lookup(Rows(ex, rows, k, cap, coup).value.0, key).Some?
    ensures Lookup(Rows(ex, rows, k, cap, coup).value.1, key).Some?
  {
    var acc := Rows(ex, rows, k - 1, cap, coup).value;
    LookupPut(acc.0, ex[k - 1], CapRow(ex, rows, k - 1), key);
    LookupPut(acc.1, ex[k - 1], CoupRow(ex, rows, k - 1), key);
    if key != ex[k - 1] {
      assert ex[..k] == ex[..k - 1] + [ex[k - 1]];
      RowsHas(ex, rows, k - 1, cap, coup, key);
    }
  }

  /**
   * After all n passes, the row of the i-th excitation holds field 1 + c of
   * line 6 + i (capacitance) and of line 9 + n + i (coupling) for the c-th
   * excitation, i and c each being the last place its name occurs.
   */
  lemma RowsEntries(ex: seq<string>, rows: seq<seq<string>>, cap: Table, coup: Table, i: nat, c: nat)
    requires i < |ex| && c < |ex|
    requires ex[i] !in ex[i + 1..] && ex[c] !in ex[c + 1..]
    requires Rows(ex, rows, |ex|, cap, coup).Ok?
    ensures var t := Rows(ex, rows, |ex|, cap, coup).value;
      && RowReadable(|ex|, rows, i)
      && Lookup(t.0, ex[i]).Some?
      && Lookup(Lookup(t.0, ex[i]).value, ex[c]) == Some(rows[6 + i][1 + c])
      && Lookup(t.1, ex[i]).Some?
      && Lookup(Lookup(t.1, ex[i]).value, ex[c]) == Some(rows[9 + |ex| + i][1 + c])
  {
    assert ex[i + 1..|ex|] == ex[i + 1..];
    assert ex[c + 1..|ex|] == ex[c + 1..];
    RowsLookup(ex, rows, |ex|, cap, coup, i);
    RowAt(ex, rows[6 + i], |ex|, c);
    RowAt(ex, rows[9 + |ex| + i], |ex|, c);
  }

  /** A successful update stores the units of line 2 and what the loop over the rows built. */
  lemma UpdateIsRows(p: Parsed, lines: seq<string>)
    requires Update(p, lines).Ok?
    ensures |lines| > 5
    ensures UnitsOf(lines[2]) == Some(Update(p, lines).value.units)
    ensures var rows := Tokenize(lines);
      && Rows(rows[5], rows, |rows[5]|, p.capacitance, p.coupling).Ok?
      && Update(p, lines).value.capacitance == Rows(rows[5], rows, |rows[5]|, p.capacitance, p.coupling).value.0
      && Update(p, lines).value.coupling == Rows(rows[5], rows, |rows[5]|, p.capacitance, p.coupling).value.1
  {
  }

  /**
   * After a successful update, capacitance[ex_i][ex_c] is field 1 + c of
   * line 6 + i and coupling[ex_i][ex_c] is field 1 + c of line 9 + n + i,
   * i and c each being the last place its excitation name occurs.
   */
  lemma UpdateEntries(p: Parsed, lines: seq<string>, i: nat, c: nat)
    requires Update(p, lines).Ok?
    requires |lines| > 5
    requires var ex := Tokenize(lines)[5];
      && i < |ex| && c < |ex|
      && ex[i] !in ex[i + 1..] && ex[c] !in ex[c + 1..]
    ensures var rows := Tokenize(lines);
      var ex := rows[5];
      var r := Update(p, lines).value;
      && RowReadable(|ex|, rows, i)
      && 9 + |ex| + i < |rows| && |rows[6 + i]| > 1 + c && |rows[9 + |ex| + i]| > 1 + c
      && Lookup(r.capacitance, ex[i]).Some?
      && Lookup(Lookup(r.capacitance, ex[i]).value, ex[c]) == Some(rows[6 + i][1 + c])
      && Lookup(r.coupling, ex[i]).Some?
      && Lookup(Lookup(r.coupling, ex[i]).value, ex[c]) == Some(rows[9 + |ex| + i][1 + c])
  {
    var rows := Tokenize(lines);
    UpdateIsRows(p, lines);
    RowsEntries(rows[5], rows, p.capacitance, p.coupling, i, c);
  }

  /** Rows of excitations not named in this export are kept from earlier reads. */
  lemma UpdateKeeps(p: Parsed, lines: seq<string>, key: string)
    requires Update(p, lines).Ok?
    requires |lines| > 5
    requires key !in Tokenize(lines)[5]
    ensures Lookup(Update(p, lines).value.capacitance, key) == Lookup(p.capacitance, key)
    ensures Lookup(Update(p, lines).value.coupling, key) == Lookup(p.coupling, key)
  {
    var rows := Tokenize(lines);
    var ex := rows[5];
    assert ex[..|ex|] == ex;
    UpdateIsRows(p, lines);
    RowsKeep(ex, rows, |ex|, p.capacitance, p.coupling, key);
  }

  /** A successful update whose line 2 reads `<a>:<one character><u>`, with no ':' in a, stores the units u. */
  lemma UpdateUnits(p: Parsed, lines: seq<string>, a: string, x: char, u: string)
    requires Update(p, lines).Ok?
    requires |lines| > 2 && lines[2] == a + [':', x] + u && ':' !in a
    ensures Update(p, lines).value.units == u
  {
    UpdateIsRows(p, lines);
    UnitsAfterColon(a, x, u);
  }

  /**
   * A parser opened on an export holds a capacitance and a coupling row for
   * exactly the excitations the export names, and its units come from line 2.
   */
  lemma OpenKeys(lines: seq<string>, key: string)
    requires Open(lines).Ok?
    ensures |lines| > 5
    ensures UnitsOf(lines[2]) == Some(Open(lines).value.units)
    ensures Lookup(Open(lines).value.capacitance, key).Some? <==> key in Tokenize(lines)[5]
    ensures Lookup(Open(lines).value.coupling, key).Some? <==> key in Tokenize(lines)[5]
  {
    var rows := Tokenize(lines);
    var ex := rows[5];
    UpdateIsRows(Parsed([], [], []), lines);
    assert ex[..|ex|] == ex;
    if key in ex {
      RowsHas(ex, rows, |ex|, [], [], key);
    } else {
      RowsKeep(ex, rows, |ex|, [], [], key);
    }
  }

  /** A units line `<a>:<one character><u>` with no ':' in a gives the units u. */
  lemma UnitsAfterColon(a: string, x: char, u: string)
    requires ':' !in a
    ensures UnitsOf(a + [':', x] + u) == Some(u)
  {
    var line := a + [':', x] + u;
    var colon := IndexOf(line, ':');
    assert line[|a|] == ':';
    assert colon == |a|;
    assert line[colon + 2..] == u;
  }

  /** A row the solver writes, a tab and then its tab-separated fields, reads back as those fields. */
  lemma FieldsOfRow(row: seq<string>)
    requires |row| >= 1 && row[0] != [] && row[0][0] != '\t'
    requires forall i :: 0 <= i < |row| ==> '\t' !in row[i]
    ensures Fields(['\t'] + Join(row, '\t')) == row
  {
    var j := Join(row, '\t');
    if |row| > 1 {
      assert j == row[0] + ['\t'] + Join(row[1..], '\t');
    }
    assert j[0] == row[0][0];
    assert (['\t'] + j)[1..] == j;
    assert LStrip(j, '\t') == j;
    assert LStrip(['\t'] + j, '\t') == j;
    SplitOfJoin(row, '\t');
  }
}
