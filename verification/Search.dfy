/** The chunked search for several strings in one file. */
module Search {
  type Bytes = seq<bv8>

  predicate OccursAt(needle: Bytes, content: Bytes, i: int) {
    0 <= i <= |content| - |needle| && content[i..i + |needle|] == needle
  }

  /** Python's `needle in content`. */
  predicate Occurs(needle: Bytes, content: Bytes) {
    exists i :: 0 <= i <= |content| - |needle| && OccursAt(needle, content, i)
  }

  /** What the reads of a file return together. */
  function Concat(chunks: seq<Bytes>): Bytes {
    if chunks == [] then [] else Concat(chunks[..|chunks| - 1]) + chunks[|chunks| - 1]
  }

  /** Python's content[-k:], for any integer k. */
  function FromEnd(content: Bytes, k: int): Bytes {
    if k > 0 then if k >= |content| then content else content[|content| - k..]
    else if -k >= |content| then [] else content[-k..]
  }

  /** The end of the file's read part that the next search needs. */
  function Kept(read: Bytes, overlap: int): Bytes {
    if overlap <= 0 then [] else FromEnd(read, overlap)
  }

  // ---------------------------------------------------------------- occurrences

  lemma OccursIn(needle: Bytes, content: Bytes, i: int)
    requires OccursAt(needle, content, i)
    ensures Occurs(needle, content)
  {
  }

  lemma OccursBefore(needle: Bytes, a: Bytes, b: Bytes)
    requires Occurs(needle, a)
    ensures Occurs(needle, a + b)
  {
    var i :| 0 <= i <= |a| - |needle| && OccursAt(needle, a, i);
    assert (a + b)[i..i + |needle|] == a[i..i + |needle|];
    OccursIn(needle, a + b, i);
  }

  lemma OccursAfter(needle: Bytes, a: Bytes, b: Bytes)
    requires Occurs(needle, b)
    ensures Occurs(needle, a + b)
  {
    var i :| 0 <= i <= |b| - |needle| && OccursAt(needle, b, i);
    assert (a + b)[|a| + i..|a| + i + |needle|] == b[i..i + |needle|];
    OccursIn(needle, a + b, |a| + i);
  }

  /** An occurrence that ends in a new chunk begins no further back than one
      byte less than the needle's length. */
  lemma OccursAtJoin(needle: Bytes, front: Bytes, tail: Bytes, chunk: Bytes, i: int)
    requires OccursAt(needle, (front + tail) + chunk, i) && needle != []
    requires |tail| + 1 >= |needle| || front == []
    ensures Occurs(needle, front + tail) || Occurs(needle, tail + chunk)
  {
    var before := front + tail;
    var n := i + |needle|;
    if n <= |before| {
      assert before[i..n] == (before + chunk)[i..n];
      OccursIn(needle, before, i);
    } else {
      var j := i - |front|;
      assert before + chunk == front + (tail + chunk);
      assert (tail + chunk)[j..j + |needle|] == (before + chunk)[i..n];
      OccursIn(needle, tail + chunk, j);
    }
  }

  /** Searching the kept end with the new chunk finds what the new chunk adds. */
  lemma OccursAcross(needle: Bytes, before: Bytes, chunk: Bytes, overlap: int)
    requires 0 < |needle| <= overlap + 1
    ensures Occurs(needle, before + chunk) <==> Occurs(needle, before) || Occurs(needle, Kept(before, overlap) + chunk)
  {
    hide Occurs;
    var tail := Kept(before, overlap);
    var front := before[..|before| - |tail|];
    assert before == front + tail;
    assert front + (tail + chunk) == before + chunk;
    if Occurs(needle, before) {
      OccursBefore(needle, before, chunk);
    }
    if Occurs(needle, tail + chunk) {
      OccursAfter(needle, front, tail + chunk);
    }
    if Occurs(needle, before + chunk) {
      var i := Occurrence(needle, before + chunk);
      OccursAtJoin(needle, front, tail, chunk, i);
    }
  }

  lemma Occurrence(needle: Bytes, content: Bytes) returns (i: int)
    requires Occurs(needle, content)
    ensures OccursAt(needle, content, i)
  {
    i :| 0 <= i <= |content| - |needle| && OccursAt(needle, content, i);
  }

  lemma EmptyOccurs(content: Bytes)
    ensures Occurs([], content)
  {
    OccursIn([], content, 0);
  }

  /** Keeping the end of what was kept is keeping the end of everything. */
  lemma TailOfTail(before: Bytes, chunk: Bytes, overlap: nat)
    requires overlap > 0
    ensures FromEnd(FromEnd(before, overlap) + chunk, overlap) == FromEnd(before + chunk, overlap)
  {
  }

  // ---------------------------------------------------------------- the search

  /** The needles found in the part of the file that has been read. An empty
      needle needs a first chunk. */
  ghost predicate FoundSo(found: set<string>, needles: map<string, Bytes>, read: Bytes) {
    forall v :: v in found <==> v in needles && Occurs(needles[v], read) && (needles[v] != [] || read != [])
  }

  method LongestNeedle(needles: map<string, Bytes>) returns (n: nat)
    requires needles.Keys != {}
    ensures forall v :: v in needles ==> |needles[v]| <= n
    ensures exists v :: v in needles && |needles[v]| == n
  {
    var v :| v in needles.Keys;
    n := |needles[v]|;
    var rest := needles.Keys - {v};
    while rest != {}
      invariant rest <= needles.Keys
      invariant forall w :: w in needles && w !in rest ==> |needles[w]| <= n
      invariant exists w :: w in needles && |needles[w]| == n
      decreases rest
    {
      var w :| w in rest;
      if |needles[w]| > n {
        n := |needles[w]|;
      }
      rest := rest - {w};
    }
  }

  /** The inner loop: one pass over the needles for one chunk. */
  method ScanContent(needles: map<string, Bytes>, before: set<string>, content: Bytes) returns (found: set<string>)
    ensures forall v :: v in found <==> v in before || (v in needles && Occurs(needles[v], content))
  {
    hide Occurs;
    found := before;
    var rest := needles.Keys;
    while rest != {}
      invariant rest <= needles.Keys
      invariant forall v :: v in found <==> v in before || (v in needles && v !in rest && Occurs(needles[v], content))
      decreases rest
    {
      var v :| v in rest;
      if v !in found {
        var occurs := Contains(needles[v], content);
        if occurs {
          found := found + {v};
        }
      }
      rest := rest - {v};
    }
  }

  method Contains(needle: Bytes, content: Bytes) returns (r: bool)
    ensures r == Occurs(needle, content)
  {
    var i := 0;
    while i + |needle| <= |content|
      invariant 0 <= i
      invariant forall j :: 0 <= j < i ==> !OccursAt(needle, content, j)
    {
      if content[i..i + |needle|] == needle {
        OccursIn(needle, content, i);
        return true;
      }
      i := i + 1;
    }
    return false;
  }

  /** file_occurrences on a file whose reads return these chunks: exactly the
      needles that occur in the whole file, however the reads split it and
      wherever the search stops; only an empty needle in an empty file is
      missed. */
  method FileOccurrences(chunks: seq<Bytes>, needles: map<string, Bytes>) returns (found: set<string>)
    requires forall i :: 0 <= i < |chunks| ==> chunks[i] != []
    ensures FoundSo(found, needles, Concat(chunks))
  {
    hide Occurs, FromEnd;
    found := {};
    if needles.Keys == {} {
      return;
    }
    var longest: int := LongestNeedle(needles);
    var overlap := longest - 1;
    var tail: Bytes := [];
    var i := 0;
    NothingFound(needles);
    while i < |chunks|
      invariant i <= |chunks|
      invariant FoundSo(found, needles, Concat(chunks[..i]))
      invariant tail == Kept(Concat(chunks[..i]), overlap)
    {
      ghost var before := Concat(chunks[..i]);
      assert chunks[..i + 1][..i] == chunks[..i];
      var content := tail + chunks[i];
      ghost var was := found;
      found := ScanContent(needles, found, content);
      ScanIsExact(needles, was, found, before, chunks[i], overlap);
      if |found| == |needles.Keys| {
        AllFoundEarly(needles, found, before + chunks[i], chunks, i + 1);
        return;
      }
      if overlap < 0 {
        EmptyNeedlesFound(needles, found, before + chunks[i]);
      }
      KeptNext(before, chunks[i], overlap);
      tail := if overlap != 0 then FromEnd(content, overlap) else [];
      i := i + 1;
    }
    assert chunks[..i] == chunks;
  }

  lemma NothingFound(needles: map<string, Bytes>)
    ensures FoundSo({}, needles, Concat([])) && Kept([], 0) == []
    ensures forall k: int :: Kept(Concat([]), k) == []
  {
  }

  lemma ScanIsExact(needles: map<string, Bytes>, was: set<string>, found: set<string>, before: Bytes, chunk: Bytes,
      overlap: int)
    requires chunk != [] && FoundSo(was, needles, before)
    requires forall v :: v in needles ==> |needles[v]| <= overlap + 1
    requires forall v :: v in found <==> v in was || (v in needles && Occurs(needles[v], Kept(before, overlap) + chunk))
    ensures FoundSo(found, needles, before + chunk)
  {
    hide Occurs;
    forall v | v in needles ensures v in found <==> Occurs(needles[v], before + chunk) {
      var needle := needles[v];
      if needle == [] {
        EmptyOccurs(before + chunk);
        EmptyOccurs(Kept(before, overlap) + chunk);
      } else {
        OccursAcross(needle, before, chunk, overlap);
      }
    }
  }

  /** With nothing but empty needles the first chunk is enough. */
  lemma EmptyNeedlesFound(needles: map<string, Bytes>, found: set<string>, read: Bytes)
    requires FoundSo(found, needles, read) && read != [] && forall v :: v in needles ==> needles[v] == []
    ensures found == needles.Keys
  {
    forall v | v in needles ensures v in found {
      EmptyOccurs(read);
    }
  }

  lemma KeptNext(before: Bytes, chunk: Bytes, overlap: int)
    requires overlap >= 0
    ensures Kept(before + chunk, overlap) == if overlap != 0 then FromEnd(Kept(before, overlap) + chunk,
          overlap) else []
  {
    hide FromEnd;
    if overlap > 0 {
      TailOfTail(before, chunk, overlap);
    }
  }

  lemma {:induction false} ReadIsPrefix(chunks: seq<Bytes>, i: nat) returns (rest: Bytes)
    requires i <= |chunks|
    ensures Concat(chunks) == Concat(chunks[..i]) + rest
  {
    if i == |chunks| {
      rest := [];
      assert chunks[..i] == chunks;
    } else {
      var n := |chunks| - 1;
      var r := ReadIsPrefix(chunks[..n], i);
      assert chunks[..n][..i] == chunks[..i];
      rest := r + chunks[n];
    }
  }

  /** Stopping early gives the answer for the whole file. */
  lemma AllFoundEarly(needles: map<string, Bytes>, found: set<string>, read: Bytes, chunks: seq<Bytes>, i: nat)
    requires i <= |chunks| && read == Concat(chunks[..i]) && read != []
    requires FoundSo(found, needles, read) && |found| == |needles.Keys|
    ensures FoundSo(found, needles, Concat(chunks))
  {
    hide Occurs;
    var rest := ReadIsPrefix(chunks, i);
    assert found <= needles.Keys;
    SubsetOfSameSize(found, needles.Keys);
    forall v | v in needles ensures Occurs(needles[v], read + rest) {
      OccursBefore(needles[v], read, rest);
    }
  }

  lemma SubsetOfSameSize(a: set<string>, b: set<string>)
    requires a <= b && |a| == |b|
    ensures a == b
  {
    if v :| v in b && v !in a {
      SmallerSubset(a, b, v);
    }
  }

  lemma SmallerSubset(a: set<string>, b: set<string>, v: string)
    requires a <= b && v in b && v !in a
    ensures |a| < |b|
  {
    assert |b| == |b - {v}| + 1;
    assert a <= b - {v};
    FewerInSubset(a, b - {v});
  }

  lemma {:induction false} FewerInSubset(a: set<string>, b: set<string>)
    requires a <= b
    ensures |a| <= |b|
    decreases a
  {
    if a != {} {
      var v :| v in a;
      FewerInSubset(a - {v}, b - {v});
    }
  }

  /** The exact condition: the answer is that of a whole-file search for every
      needle, unless a needle and the file are both empty. */
  lemma ExactUnlessBothEmpty(found: set<string>, needles: map<string, Bytes>, file: Bytes)
    requires FoundSo(found, needles, file)
    ensures (forall v :: v in found <==> v in needles && Occurs(needles[v], file))
       <==> !(file == [] && exists v :: v in needles && needles[v] == [])
  {
    hide Occurs;
    EmptyOccurs(file);
    if file == [] && exists v :: v in needles && needles[v] == [] {
      var v :| v in needles && needles[v] == [];
      assert v !in found;
    }
  }
}
