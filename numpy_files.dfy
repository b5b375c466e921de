/** `NumpyFileGenerator._next_file`: how the arrays of an `.npz` file are
    recognised as event columns, either positionally (`arr_0` ... `arr_5`)
    or by their names, and how the columns are checked before events are
    built from them. Arrays are modelled by their names and lengths. */
module NumpyFiles {
  import opened Common

  /** One array of an `.npz` file: its name and its length. */
  datatype NamedArray = NamedArray(key: string, length: nat)

  /** An `.npz` file: its arrays in stored order (names are distinct). */
  datatype NpzFile = NpzFile(arrays: seq<NamedArray>)

  /** The columns of events a file provides, each as its length when present. */
  datatype Columns = Columns(ids: Option<nat>, vertices: Option<nat>, directions: Option<nat>,
                             energies: Option<nat>, interactions: Option<nat>, weights: Option<nat>)

  const NoColumns := Columns(None, None, None, None, None, None)

  datatype Column = Ids | Vertices | Directions | Energies | Interactions | Weights

  function Get(c: Columns, col: Column): Option<nat> {
    match col
    case Ids => c.ids
    case Vertices => c.vertices
    case Directions => c.directions
    case Energies => c.energies
    case Interactions => c.interactions
    case Weights => c.weights
  }

  // ---------------------------------------------------------------------
  // Strings

  /** `str.lower` on ASCII letters. */
  function LowerChar(c: char): char {
    if 'A' <= c <= 'Z' then (c as int + 32) as char else c
  }

  function Lower(s: string): (r: string)
    ensures |r| == |s| && forall i :: 0 <= i < |s| ==> r[i] == LowerChar(s[i])
  {
    if |s| == 0 then [] else [LowerChar(s[0])] + Lower(s[1..])
  }

  predicate StartsWith(s: string, prefix: string) {
    |prefix| <= |s| && s[..|prefix|] == prefix
  }

  /** `sub in s`. */
  predicate Contains(s: string, sub: string)
    decreases |s|
  {
    StartsWith(s, sub) || (|s| > 0 && Contains(s[1..], sub))
  }

  // ---------------------------------------------------------------------
  // Recognising named arrays

  /** Whether a lower-cased array name is taken for a column. */
  predicate Matches(col: Column, key: string) {
    match col
    case Ids => Contains(key, "id")
    case Vertices => Contains(key, "vert") || StartsWith(key, "v")
    case Directions => Contains(key, "dir") || StartsWith(key, "d")
    case Energies => Contains(key, "en") || StartsWith(key, "e")
    case Interactions => Contains(key, "int") || Contains(key, "type") || Contains(key, "curr")
    case Weights => Contains(key, "weight") || StartsWith(key, "w")
  }

  /** One pass of the loop over `data.items()`: every column whose tests
      the lower-cased name passes is set to the array (each `if`/`elif`
      chain of the loop is one column's disjunction in `Matches`). */
  function AssignKey(c: Columns, key: string, length: nat): Columns {
    Columns(Pick(c, Ids, key, length), Pick(c, Vertices, key, length), Pick(c, Directions, key, length),
            Pick(c, Energies, key, length), Pick(c, Interactions, key, length), Pick(c, Weights, key, length))
  }

  function Pick(c: Columns, col: Column, key: string, length: nat): Option<nat> {
    if Matches(col, key) then Some(length) else Get(c, col)
  }

  /** The loop over the arrays of a file without `arr_0`. */
  function ReadNamed(arrays: seq<NamedArray>, c: Columns): Columns
    decreases |arrays|
  {
    if |arrays| == 0 then c
    else ReadNamed(arrays[1..], AssignKey(c, Lower(arrays[0].key), arrays[0].length))
  }

  /** The length of the last array whose name is taken for a column. */
  function LastMatch(arrays: seq<NamedArray>, col: Column): (r: Option<nat>)
    ensures r.Some? <==> exists i :: 0 <= i < |arrays| && Matches(col, Lower(arrays[i].key))
    decreases |arrays|
  {
    if |arrays| == 0 then None
    else
      var rest := LastMatch(arrays[1..], col);
      if rest.Some? then rest
      else if Matches(col, Lower(arrays[0].key)) then Some(arrays[0].length)
      else None
  }

  /** Each column read by name holds the last array taken for it, and is
      missing exactly when no array's name matches it. */
  lemma {:induction false} ReadNamedTakesLast(arrays: seq<NamedArray>, c: Columns, col: Column)
    ensures Get(ReadNamed(arrays, c), col) == if LastMatch(arrays, col).Some? then LastMatch(arrays, col) else Get(c, col)
    decreases |arrays|
  {
    if |arrays| > 0 {
      var c' := AssignKey(c, Lower(arrays[0].key), arrays[0].length);
      assert Get(c', col) == Pick(c, col, Lower(arrays[0].key), arrays[0].length) by {
        match col
        case Ids => case Vertices => case Directions => case Energies => case Interactions => case Weights =>
      }
      ReadNamedTakesLast(arrays[1..], c', col);
    }
  }

  // ---------------------------------------------------------------------
  // Reading and checking a file

  function Lookup(arrays: seq<NamedArray>, key: string): (r: Option<nat>)
    ensures r.Some? <==> exists i :: 0 <= i < |arrays| && arrays[i].key == key
    decreases |arrays|
  {
    if |arrays| == 0 then None
    else if arrays[0].key == key then Some(arrays[0].length)
    else Lookup(arrays[1..], key)
  }

  /** The positional layout: ids, vertices, directions and energies in
      `arr_0` to `arr_3`, which must exist, and optionally interactions and
      weights in `arr_4` and `arr_5`. */
  function ReadPositional(arrays: seq<NamedArray>): (r: Result<Columns>)
    ensures r.Err? <==> Lookup(arrays, "arr_1").None? || Lookup(arrays, "arr_2").None? || Lookup(arrays, "arr_3").None?
    ensures r.Err? ==> r.error == KeyError
  {
    match (Lookup(arrays, "arr_1"), Lookup(arrays, "arr_2"), Lookup(arrays, "arr_3"))
    case (Some(v), Some(d), Some(e)) =>
      Ok(Columns(Lookup(arrays, "arr_0"), Some(v), Some(d), Some(e), Lookup(arrays, "arr_4"), Lookup(arrays, "arr_5")))
    case _ => Err(KeyError)
  }

  /** Whether the columns may be turned into events: vertices, directions
      and energies present, and every present column as long as the ids. */
  predicate Consistent(c: Columns) {
    && c.ids.Some? && c.vertices.Some? && c.directions.Some? && c.energies.Some?
    && c.vertices == c.ids && c.directions == c.ids && c.energies == c.ids
    && (c.interactions.Some? ==> c.interactions == c.ids)
    && (c.weights.Some? ==> c.weights == c.ids)
  }

  /** The checks after reading: a missing vertex, direction or energy
      column is a `KeyError`; missing ids make `len(None)` a `TypeError`;
      columns of different lengths are a `ValueError`. */
  function Check(c: Columns): (r: Result<Columns>)
    ensures r.Ok? <==> Consistent(c)
    ensures r.Ok? ==> r.value == c
    ensures r.Err? && (c.vertices.None? || c.directions.None? || c.energies.None?) ==> r.error == KeyError
    ensures r.Err? && c.vertices.Some? && c.directions.Some? && c.energies.Some? ==>
              r.error == (if c.ids.None? then TypeError else ValueError)
  {
    if c.vertices.None? || c.directions.None? || c.energies.None? then Err(KeyError)
    else if c.ids.None? then Err(TypeError)
    else if c.ids != c.vertices || c.ids != c.directions || c.ids != c.energies
         || (c.interactions.Some? && c.ids != c.interactions)
         || (c.weights.Some? && c.ids != c.weights) then Err(ValueError)
    else Ok(c)
  }

  /** The columns of one file. */
  function ReadColumns(file: NpzFile): (r: Result<Columns>)
    ensures r.Ok? ==> Consistent(r.value)
    ensures r.Err? ==> r.error in {KeyError, TypeError, ValueError}
  {
    var read := if Lookup(file.arrays, "arr_0").Some? then ReadPositional(file.arrays)
                else Ok(ReadNamed(file.arrays, NoColumns));
    match read
    case Err(e) => Err(e)
    case Ok(c) => Check(c)
  }

  /** `_next_file`: the next file of the list, or `StopIteration` past the
      last one; returns the new file index with the columns. */
  function NextFile(fileIndex: int, files: seq<NpzFile>): (r: (int, Result<Columns>))
    requires fileIndex >= -1
    ensures r.0 == fileIndex + 1
    ensures r.1 == Err(StopIteration) <==> fileIndex + 1 >= |files|
    ensures fileIndex + 1 < |files| ==> r.1 == ReadColumns(files[fileIndex + 1])
  {
    var index := fileIndex + 1;
    if index >= |files| then (index, Err(StopIteration)) else (index, ReadColumns(files[index]))
  }

  /** A positional file is read from `arr_0` to `arr_5` alone. */
  lemma PositionalColumns(file: NpzFile)
    requires Lookup(file.arrays, "arr_0").Some?
    ensures var a := file.arrays;
      ReadColumns(file) ==
        if Lookup(a, "arr_1").None? || Lookup(a, "arr_2").None? || Lookup(a, "arr_3").None? then Err(KeyError)
        else Check(Columns(Lookup(a, "arr_0"), Lookup(a, "arr_1"), Lookup(a, "arr_2"), Lookup(a, "arr_3"),
                           Lookup(a, "arr_4"), Lookup(a, "arr_5")))
  {
  }

  /** A file read by names holds, in each column, the last array whose
      lower-cased name is taken for it, and is then checked. */
  lemma NamedColumns(file: NpzFile)
    requires Lookup(file.arrays, "arr_0").None?
    ensures var a := file.arrays;
      ReadColumns(file) ==
        Check(Columns(LastMatch(a, Ids), LastMatch(a, Vertices), LastMatch(a, Directions),
                      LastMatch(a, Energies), LastMatch(a, Interactions), LastMatch(a, Weights)))
  {
    var a := file.arrays;
    ReadNamedTakesLast(a, NoColumns, Ids);
    ReadNamedTakesLast(a, NoColumns, Vertices);
    ReadNamedTakesLast(a, NoColumns, Directions);
    ReadNamedTakesLast(a, NoColumns, Energies);
    ReadNamedTakesLast(a, NoColumns, Interactions);
    ReadNamedTakesLast(a, NoColumns, Weights);
    assert ReadNamed(a, NoColumns) == Columns(LastMatch(a, Ids), LastMatch(a, Vertices), LastMatch(a, Directions),
                                             LastMatch(a, Energies), LastMatch(a, Interactions), LastMatch(a, Weights));
  }

  /** A file without a recognisable energy column is refused with a
      `KeyError`, whatever else it holds. */
  lemma NoEnergiesRefused(file: NpzFile)
    requires Lookup(file.arrays, "arr_0").None?
    requires forall i :: 0 <= i < |file.arrays| ==> !Matches(Energies, Lower(file.arrays[i].key))
    ensures ReadColumns(file) == Err(KeyError)
  {
    ReadNamedTakesLast(file.arrays, NoColumns, Energies);
  }
}
