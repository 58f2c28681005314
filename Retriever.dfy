/** The vector-store retriever, without the embedding model and the FAISS
    index: how a query is cleaned before it is embedded, the guard against
    empty queries, and how the row of neighbour indices the index returns is
    turned into metadata records. */
module Retriever {
  import opened Common

  /** Either a value or the `IndexError` Python raises for a subscript out
      of range. */
  datatype Outcome<T> = Ok(value: T) | IndexError

  /** `s.replace(from, to)` for single characters. */
  function ReplaceChar(s: string, from: char, to: char): (r: string)
    ensures |r| == |s|
    ensures forall i :: 0 <= i < |s| ==> r[i] == (if s[i] == from then to else s[i])
  {
    seq(|s|, i requires 0 <= i < |s| => if s[i] == from then to else s[i])
  }

  /** What cleaning does to one character: newlines and tabs become
      spaces. */
  function Blank(c: char): (r: char)
    ensures r != '\n' && r != '\t'
    ensures IsPySpace(r) <==> IsPySpace(c)
    ensures c != '\n' && c != '\t' ==> r == c
  {
    if c == '\n' || c == '\t' then ' ' else c
  }

  /** Newlines, then tabs, replaced by spaces. */
  function Spaced(text: string): (r: string)
    ensures |r| == |text|
    ensures forall i :: 0 <= i < |text| ==> r[i] == Blank(text[i])
  {
    var once := ReplaceChar(text, '\n', ' ');
    var twice := ReplaceChar(once, '\t', ' ');
    assert forall i :: 0 <= i < |text| ==> twice[i] == Blank(text[i]) by {
      forall i | 0 <= i < |text| ensures twice[i] == Blank(text[i]) {
        assert once[i] == (if text[i] == '\n' then ' ' else text[i]);
      }
    }
    twice
  }

  /** `_clean`: newlines, then tabs, replaced by spaces, and the result
      stripped. No newline or tab is left, and no whitespace at either
      end. */
  function Clean(text: string): (r: string)
    ensures forall i :: 0 <= i < |r| ==> r[i] != '\n' && r[i] != '\t'
    ensures r == [] || (!IsPySpace(r[0]) && !IsPySpace(r[|r| - 1]))
  {
    var spaced := Spaced(text);
    var r := PyStrip(spaced);
    TrimKeepsMiddle(spaced, PySpace);
    StretchOfBlanked(text, spaced, r);
    r
  }

  lemma StretchOfBlanked(text: string, spaced: string, r: string)
    requires |spaced| == |text| && forall i :: 0 <= i < |text| ==> spaced[i] == Blank(text[i])
    requires exists a :: TrimmedAt(spaced, PySpace, a, r)
    ensures forall i :: 0 <= i < |r| ==> r[i] != '\n' && r[i] != '\t'
  {
    var a :| TrimmedAt(spaced, PySpace, a, r);
    forall i | 0 <= i < |r| ensures r[i] != '\n' && r[i] != '\t' {
      assert r[i] == spaced[a + i];
    }
  }

  /** `r` is the stretch of `text` at offset `a`, with newlines and tabs
      blanked, and only whitespace of `text` lies outside that stretch. */
  ghost predicate CleanedAt(text: string, a: int, r: string) {
    0 <= a <= |text| - |r|
    && (forall i :: 0 <= i < |r| ==> r[i] == Blank(text[a + i]))
    && (forall i :: 0 <= i < a ==> IsPySpace(text[i]))
    && (forall i :: a + |r| <= i < |text| ==> IsPySpace(text[i]))
  }

  /** Cleaning loses nothing but surrounding whitespace: the result is a
      stretch of the text with newlines and tabs blanked. */
  lemma CleanKeepsText(text: string)
    ensures exists a :: CleanedAt(text, a, Clean(text))
  {
    var spaced := Spaced(text);
    var r := Trim(spaced, PySpace);
    assert Clean(text) == r;
    TrimKeepsMiddle(spaced, PySpace);
    var a :| TrimmedAt(spaced, PySpace, a, r);
    BlankedStretch(text, spaced, a, r);
  }

  /** A trimmed stretch of the blanked text is a cleaned stretch of the
      text, since blanking turns whitespace into whitespace only. */
  lemma BlankedStretch(text: string, spaced: string, a: int, r: string)
    requires |spaced| == |text| && forall i :: 0 <= i < |text| ==> spaced[i] == Blank(text[i])
    requires TrimmedAt(spaced, PySpace, a, r)
    ensures CleanedAt(text, a, r)
  {
    forall i | 0 <= i < |r| ensures r[i] == Blank(text[a + i]) {
      assert r[i] == spaced[a + i];
    }
  }

  /** Cleaning twice is cleaning once. */
  lemma CleanIdempotent(text: string)
    ensures Clean(Clean(text)) == Clean(text)
  {
    var c := Clean(text);
    assert Spaced(c) == c;
    TrimOfTrimmed(c, PySpace);
  }

  /** `meta[idx]` on a Python list: a negative index counts from the end,
      and anything outside `-|meta| .. |meta| - 1` raises. */
  function PyIndex<T>(meta: seq<T>, idx: int): (r: Outcome<T>)
    ensures r.Ok? <==> -|meta| <= idx < |meta|
    ensures 0 <= idx < |meta| ==> r == Ok(meta[idx])
    ensures -|meta| <= idx < 0 ==> r == Ok(meta[|meta| + idx])
  {
    if 0 <= idx < |meta| then Ok(meta[idx])
    else if -|meta| <= idx < 0 then Ok(meta[|meta| + idx])
    else IndexError
  }

  /** The entries of the row that are not the -1 padding, in order. */
  function Kept(row: seq<int>): (k: seq<int>)
    ensures |k| <= |row|
    ensures forall j :: 0 <= j < |k| ==> k[j] != -1 && k[j] in row
    ensures (forall i :: 0 <= i < |row| ==> row[i] != -1) ==> k == row
  {
    if row == [] then []
    else
      var last := row[|row| - 1];
      var k := Kept(row[..|row| - 1]);
      assert row == row[..|row| - 1] + [last];
      k + (if last == -1 then [] else [last])
  }

  /** Dropping the padding works entry by entry, so the kept entries keep
      their relative order: dropping from a concatenation drops from each
      part. */
  lemma {:induction false} KeptConcat(a: seq<int>, b: seq<int>)
    ensures Kept(a + b) == Kept(a) + Kept(b)
    decreases |b|
  {
    if b == [] {
      assert a + b == a;
    } else {
      var init := b[..|b| - 1];
      assert (a + b)[..|a + b| - 1] == a + init;
      KeptConcat(a, init);
    }
  }

  /** The records `search` returns for an index row, or the error the
      first bad index raises. */
  function Collect<T>(row: seq<int>, meta: seq<T>): (r: Outcome<seq<T>>)
    ensures r.Ok? ==> |r.value| <= |row|
    ensures r.Ok? ==> forall j :: 0 <= j < |r.value| ==> r.value[j] in meta
  {
    if row == [] then Ok([])
    else
      match Collect(row[..|row| - 1], meta)
      case IndexError => IndexError
      case Ok(rs) =>
        var idx := row[|row| - 1];
        if idx == -1 then Ok(rs)
        else match PyIndex(meta, idx)
          case IndexError => IndexError
          case Ok(v) => Ok(rs + [v])
  }

  /** Once a prefix of the row has raised, the whole row raises. */
  lemma {:induction false} CollectErrorPersists<T>(row: seq<int>, meta: seq<T>, i: nat)
    requires i <= |row| && Collect(row[..i], meta).IndexError?
    ensures Collect(row, meta).IndexError?
    decreases |row|
  {
    if i < |row| {
      var init := row[..|row| - 1];
      assert init[..i] == row[..i];
      CollectErrorPersists(init, meta, i);
    } else {
      assert row[..i] == row;
    }
  }

  /** One more entry of the row: a -1 adds nothing, a valid subscript adds
      its record, and a bad one raises. */
  lemma CollectStep<T>(row: seq<int>, meta: seq<T>, i: nat)
    requires i < |row| && Collect(row[..i], meta).Ok?
    ensures row[i] == -1 ==> Collect(row[..i + 1], meta) == Collect(row[..i], meta)
    ensures row[i] != -1 && PyIndex(meta, row[i]).Ok? ==>
              Collect(row[..i + 1], meta) == Ok(Collect(row[..i], meta).value + [PyIndex(meta, row[i]).value])
    ensures row[i] != -1 && PyIndex(meta, row[i]).IndexError? ==> Collect(row[..i + 1], meta).IndexError?
  {
    assert row[..i + 1][..i] == row[..i];
  }

  /** The row succeeds exactly when every entry is -1 or a valid list
      subscript; then the results are the records of the entries that are
      not -1, one each, in row order, so there are at most as many results
      as entries. */
  lemma {:induction false} CollectSpec<T>(row: seq<int>, meta: seq<T>)
    ensures Collect(row, meta).Ok? <==>
              forall i :: 0 <= i < |row| ==> row[i] == -1 || -|meta| <= row[i] < |meta|
    ensures Collect(row, meta).Ok? ==>
              var rs := Collect(row, meta).value;
              |rs| == |Kept(row)| <= |row|
              && forall j :: 0 <= j < |rs| ==> PyIndex(meta, Kept(row)[j]) == Ok(rs[j])
  {
    if row != [] {
      var init := row[..|row| - 1];
      CollectSpec(init, meta);
      assert forall i :: 0 <= i < |init| ==> init[i] == row[i];
      assert row == init + [row[|row| - 1]];
    }
  }

  /** With indices from the index itself (each -1 or a position in the
      metadata), the results are exactly `meta[idx]` for every non-padding
      entry, in order. */
  lemma CollectInRange<T>(row: seq<int>, meta: seq<T>)
    requires forall i :: 0 <= i < |row| ==> row[i] == -1 || 0 <= row[i] < |meta|
    ensures Collect(row, meta).Ok?
    ensures var rs := Collect(row, meta).value;
            |rs| == |Kept(row)| && forall j :: 0 <= j < |rs| ==> 0 <= Kept(row)[j] < |meta| && rs[j] == meta[Kept(row)[j]]
  {
    CollectSpec(row, meta);
    var k := Kept(row);
    forall j | 0 <= j < |k| ensures 0 <= k[j] < |meta| {
      var i :| 0 <= i < |row| && row[i] == k[j];
    }
  }

  /** The result loop of `search`: each index of the row that is not -1
      is looked up in `meta` and its record appended, and the first bad
      subscript raises. */
  method CollectRow<T>(row: seq<int>, meta: seq<T>) returns (results: Outcome<seq<T>>)
    ensures results == Collect(row, meta)
  {
    var found: seq<T> := [];
    for i := 0 to |row|
      invariant Collect(row[..i], meta) == Ok(found)
    {
      CollectStep(row, meta, i);
      var idx := row[i];
      if idx == -1 {
        continue;
      }
      var entry := PyIndex(meta, idx);
      if entry.IndexError? {
        CollectErrorPersists(row, meta, i + 1);
        return IndexError;
      }
      found := found + [entry.value];
    }
    assert row[..|row|] == row;
    return Ok(found);
  }

  /** `search(query, k)`. The query is stripped; an empty query returns no
      results and is never embedded. Otherwise the cleaned query is what is
      embedded (reported in `embedded`), `nearest` stands for the embedding
      model and the FAISS search together and gives the row of `k`
      neighbour indices, and the row is collected by `CollectRow`. */
  method Search<T>(query: string, k: nat, meta: seq<T>, nearest: (string, nat) -> seq<int>)
    returns (results: Outcome<seq<T>>, embedded: Option<string>)
    ensures PyStrip(query) == [] ==> results == Ok([]) && embedded == None
    ensures PyStrip(query) != [] ==>
              embedded == Some(Clean(PyStrip(query)))
              && results == Collect(nearest(Clean(PyStrip(query)), k), meta)
  {
    var q := PyStrip(query);
    if q == [] {
      return Ok([]), None;
    }
    var text := Clean(q);
    embedded := Some(text);
    results := CollectRow(nearest(text, k), meta);
  }
}
