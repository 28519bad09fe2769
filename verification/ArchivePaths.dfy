/** Archive paths: their components, the check that normalisation makes, and byte order. */
module ArchivePaths {
  import opened Octets

  const SLASH := 0x2f
  const DOT := 0x2e

  datatype File = File(path: seq<Byte>, bytes: seq<Byte>, mode: nat)

  // ---------- Components ----------

  /** The length of the first component. */
  function FirstLen(path: seq<Byte>): (n: nat)
    ensures n <= |path| && (n < |path| ==> path[n] == SLASH)
    ensures forall i :: 0 <= i < n ==> path[i] != SLASH
  {
    if path == [] || path[0] == SLASH then 0 else 1 + FirstLen(path[1..])
  }

  /** The components between slashes; there is always at least one, perhaps empty. */
  function Split(path: seq<Byte>): (r: seq<seq<Byte>>)
    ensures |r| > 0
    decreases |path|
  {
    var n := FirstLen(path);
    if n == |path| then [path] else [path[..n]] + Split(path[n + 1..])
  }

  function Join(parts: seq<seq<Byte>>): seq<Byte>
    requires |parts| > 0
  {
    if |parts| == 1 then parts[0] else Join(parts[..|parts| - 1]) + [SLASH] + parts[|parts| - 1]
  }

  /** The same join, from the front. */
  function JoinFront(parts: seq<seq<Byte>>): seq<Byte>
    requires |parts| > 0
  {
    if |parts| == 1 then parts[0] else parts[0] + [SLASH] + JoinFront(parts[1..])
  }

  lemma {:induction false} JoinsAgree(parts: seq<seq<Byte>>)
    requires |parts| > 0
    ensures Join(parts) == JoinFront(parts)
    decreases |parts|
  {
    if |parts| == 2 {
      assert parts[1..] == [parts[1]] && parts[..1] == [parts[0]];
    } else if |parts| > 2 {
      var last := |parts| - 1;
      JoinsAgree(parts[..last]);
      JoinsAgree(parts[1..]);
      JoinsAgree(parts[1..][..last - 1]);
      assert parts[..last][1..] == parts[1..][..last - 1];
      calc {
        Join(parts);
        Join(parts[..last]) + [SLASH] + parts[last];
        parts[0] + [SLASH] + JoinFront(parts[1..][..last - 1]) + [SLASH] + parts[last];
        parts[0] + [SLASH] + (JoinFront(parts[1..][..last - 1]) + [SLASH] + parts[last]);
        parts[0] + [SLASH] + JoinFront(parts[1..]);
      }
    }
  }

  lemma {:induction false} SplitFirst(path: seq<Byte>)
    ensures var n := FirstLen(path); Split(path) == if n == |path| then [path] else [path[..n]] + Split(path[n + 1..])
  {
    hide FirstLen;
  }

  lemma {:induction false} JoinOne(part: seq<Byte>)
    ensures JoinFront([part]) == part
  {
  }

  lemma {:induction false} JoinMore(first: seq<Byte>, rest: seq<seq<Byte>>)
    requires |rest| > 0
    ensures JoinFront([first] + rest) == first + [SLASH] + JoinFront(rest)
  {
    assert ([first] + rest)[1..] == rest;
  }

  lemma {:induction false} JoinSplit(path: seq<Byte>)
    ensures JoinFront(Split(path)) == path
    decreases |path|
  {
    hide FirstLen, Split, JoinFront;
    var n := FirstLen(path);
    SplitFirst(path);
    if n == |path| {
      JoinOne(path);
    } else {
      JoinSplit(path[n + 1..]);
      JoinMore(path[..n], Split(path[n + 1..]));
      assert path == path[..n] + [SLASH] + path[n + 1..];
    }
  }

  predicate GoodPart(part: seq<Byte>) {
    part != [] && part != [DOT] && part != [DOT, DOT]
  }

  /** A relative path of plain components. */
  predicate ValidPath(path: seq<Byte>) {
    forall i :: 0 <= i < |Split(path)| ==> GoodPart(Split(path)[i])
  }

  lemma EdgesAreParts(path: seq<Byte>)
    requires path == [] || path[0] == SLASH || path[|path| - 1] == SLASH
    ensures !ValidPath(path)
  {
    if path == [] || path[0] == SLASH {
      assert Split(path)[0] == [];
    } else {
      TrailingSlash(path);
    }
  }

  lemma {:induction false} TrailingSlash(path: seq<Byte>)
    requires path != [] && path[|path| - 1] == SLASH
    ensures Split(path)[|Split(path)| - 1] == []
    decreases |path|
  {
    var n := FirstLen(path);
    var rest := path[n + 1..];
    if rest != [] {
      TrailingSlash(rest);
    }
  }

  /** Normalisation rebuilds the path from its components, and so returns it as it was or refuses it. */
  method NormalizePath(path: seq<Byte>) returns (r: Option<seq<Byte>>)
    ensures r == if ValidPath(path) then Some(path) else None
  {
    hide Split;
    if path == [] || path[0] == SLASH || path[|path| - 1] == SLASH {
      EdgesAreParts(path);
      return None;
    }
    var parts := Split(path);
    var out: seq<Byte> := [];
    for i := 0 to |parts|
      invariant i > 0 ==> out == Join(parts[..i]) && out != []
      invariant i == 0 ==> out == []
      invariant forall k :: 0 <= k < i ==> GoodPart(parts[k])
    {
      if !GoodPart(parts[i]) {
        return None;
      }
      assert parts[..i + 1][..i] == parts[..i] && parts[..i + 1][i] == parts[i];
      if out != [] {
        out := out + [SLASH];
      }
      out := out + parts[i];
    }
    assert parts[..|parts|] == parts;
    JoinsAgree(parts);
    JoinSplit(path);
    return Some(out);
  }

  // ---------- Order ----------

  predicate Less(a: seq<Byte>, b: seq<Byte>) {
    b != [] && (a == [] || a[0] < b[0] || (a[0] == b[0] && Less(a[1..], b[1..])))
  }

  lemma {:induction false} LessTotal(a: seq<Byte>, b: seq<Byte>)
    ensures a == b || Less(a, b) || Less(b, a)
    ensures !(Less(a, b) && Less(b, a)) && !Less(a, a)
  {
    if a != [] && b != [] {
      LessTotal(a[1..], b[1..]);
      if a[0] == b[0] && a[1..] == b[1..] {
        assert a == [a[0]] + a[1..] && b == [b[0]] + b[1..];
      }
    }
    if a != [] {
      LessTotal(a[1..], a[1..]);
    }
  }

  /** Each path comes strictly before the next. */
  predicate Increasing(files: seq<File>) {
    forall i :: 0 < i < |files| ==> Less(files[i - 1].path, files[i].path)
  }

  function Insert(f: File, files: seq<File>): (r: seq<File>)
    ensures |r| == |files| + 1
  {
    if files == [] || Less(f.path, files[0].path) then [f] + files else [files[0]] + Insert(f, files[1..])
  }

  function Sort(files: seq<File>): (r: seq<File>)
    ensures |r| == |files|
  {
    if files == [] then [] else Insert(files[|files| - 1], Sort(files[..|files| - 1]))
  }

  lemma {:induction false} InsertHas(f: File, files: seq<File>, x: File)
    ensures x in Insert(f, files) <==> x == f || x in files
  {
    if files != [] && !Less(f.path, files[0].path) {
      InsertHas(f, files[1..], x);
      assert files == [files[0]] + files[1..];
    }
  }

  lemma {:induction false} SortHas(files: seq<File>, x: File)
    ensures x in Sort(files) <==> x in files
  {
    if files != [] {
      var last := |files| - 1;
      SortHas(files[..last], x);
      InsertHas(files[last], Sort(files[..last]), x);
      assert files == files[..last] + [files[last]];
    }
  }

  lemma {:induction false} InsertIncreasing(f: File, files: seq<File>)
    requires Increasing(files) && forall x :: x in files ==> x.path != f.path
    ensures Increasing(Insert(f, files))
    ensures files != [] && !Less(f.path, files[0].path) ==> Insert(f, files)[0] == files[0]
  {
    if files != [] && !Less(f.path, files[0].path) {
      LessTotal(f.path, files[0].path);
      assert forall i :: 0 < i < |files[1..]| ==> files[1..][i - 1] == files[i] && files[1..][i] == files[i + 1];
      InsertIncreasing(f, files[1..]);
      var rest := Insert(f, files[1..]);
      assert rest[0] == f || (files[1..] != [] && rest[0] == files[1]);
    }
  }

  ghost predicate DistinctPaths(files: seq<File>) {
    forall i, j :: 0 <= i < j < |files| ==> files[i].path != files[j].path
  }

  /** Sorting distinct paths gives a strictly increasing list of the same files. */
  lemma {:induction false} SortIncreasing(files: seq<File>)
    requires DistinctPaths(files)
    ensures Increasing(Sort(files))
  {
    if files != [] {
      var last := |files| - 1;
      SortIncreasing(files[..last]);
      forall x | x in Sort(files[..last]) ensures x.path != files[last].path {
        SortHas(files[..last], x);
      }
      InsertIncreasing(files[last], Sort(files[..last]));
    }
  }

  lemma {:induction false} LessTransitive(a: seq<Byte>, b: seq<Byte>, c: seq<Byte>)
    requires Less(a, b) && Less(b, c)
    ensures Less(a, c)
  {
    if a != [] && a[0] == b[0] == c[0] {
      LessTransitive(a[1..], b[1..], c[1..]);
    }
  }

  lemma {:induction false} FirstIsLeast(files: seq<File>, i: nat)
    requires Increasing(files) && 0 < i < |files|
    ensures Less(files[0].path, files[i].path)
  {
    hide Less;
    if i > 1 {
      FirstIsLeast(files, i - 1);
      LessTransitive(files[0].path, files[i - 1].path, files[i].path);
    }
  }

  ghost predicate SameFiles(a: seq<File>, b: seq<File>) {
    forall x :: x in a <==> x in b
  }

  lemma SameFirst(a: seq<File>, b: seq<File>)
    requires Increasing(a) && Increasing(b) && SameFiles(a, b) && a != []
    ensures b != [] && a[0] == b[0]
  {
    hide Less, Increasing;
    assert a[0] in b;
    var i :| 0 <= i < |b| && b[i] == a[0];
    assert b[0] in a;
    var j :| 0 <= j < |a| && a[j] == b[0];
    if i > 0 && j > 0 {
      FirstIsLeast(a, j);
      FirstIsLeast(b, i);
      LessTotal(a[0].path, b[0].path);
    }
  }

  lemma RestIncreasing(files: seq<File>)
    requires Increasing(files) && files != []
    ensures Increasing(files[1..]) && (files[1..] != [] ==> Less(files[0].path, files[1..][0].path))
    ensures forall x :: x in files[1..] <==> x in files && x != files[0]
  {
    hide Less;
    var rest := files[1..];
    forall i | 0 < i < |rest| ensures Less(rest[i - 1].path, rest[i].path) {
      assert rest[i - 1] == files[i] && rest[i] == files[i + 1];
      assert Less(files[i + 1 - 1].path, files[i + 1].path);
    }
    assert files == [files[0]] + rest;
    if files[0] in rest {
      var i :| 0 <= i < |rest| && rest[i] == files[0];
      FirstIsLeast(files, i + 1);
      LessTotal(files[0].path, files[0].path);
    }
  }

  /** Only one strictly increasing list holds given files, so every sorting method gives it. */
  lemma {:induction false} IncreasingUnique(a: seq<File>, b: seq<File>)
    requires Increasing(a) && Increasing(b) && SameFiles(a, b)
    ensures a == b
  {
    hide Less, Increasing;
    if a == [] && b != [] {
      SameFirst(b, a);
    } else if a != [] {
      SameFirst(a, b);
      RestIncreasing(a);
      RestIncreasing(b);
      IncreasingUnique(a[1..], b[1..]);
      assert a == [a[0]] + a[1..] && b == [b[0]] + b[1..];
    }
  }
}
