/** The string operations the navigation code builds paths from:
    `path.split('/')`, `.filter(Boolean)` and `.join('/')`. */
module Paths {

  const Slash: char := '/'

  /** `s.split(sep)`: the pieces between separators, empty ones included;
      never an empty list ("".split(sep) is [""]). */
  function Split(s: string, sep: char): (parts: seq<string>)
    ensures |parts| >= 1
    ensures forall k :: 0 <= k < |parts| ==> sep !in parts[k]
  {
    if s == [] then [""]
    else
      var rest := Split(s[1..], sep);
      if s[0] == sep then [""] + rest
      else [[s[0]] + rest[0]] + rest[1..]
  }

  /** `parts.join(sep)`; the empty list joins to "". */
  function Join(parts: seq<string>, sep: char): string {
    if |parts| == 0 then ""
    else if |parts| == 1 then parts[0]
    else parts[0] + [sep] + Join(parts[1..], sep)
  }

  /** `.filter(Boolean)` on strings: drops the empty ones, keeps the order. */
  function NonEmpty(parts: seq<string>): (kept: seq<string>)
    ensures |kept| <= |parts|
    ensures forall k :: 0 <= k < |kept| ==> kept[k] != "" && kept[k] in parts
  {
    if parts == [] then []
    else if parts[0] == "" then NonEmpty(parts[1..])
    else [parts[0]] + NonEmpty(parts[1..])
  }

  /** `path.split('/').filter(Boolean)` */
  function Segments(path: string): (segs: seq<string>)
    ensures forall k :: 0 <= k < |segs| ==> segs[k] != "" && Slash !in segs[k]
  {
    NonEmpty(Split(path, Slash))
  }

  /** Every piece is free of the separator (what `Segments` yields). */
  predicate SeparatorFree(parts: seq<string>, sep: char) {
    forall k :: 0 <= k < |parts| ==> sep !in parts[k]
  }

  /** A segment list: every segment non-empty and free of '/'. */
  predicate ProperSegments(segs: seq<string>) {
    forall k :: 0 <= k < |segs| ==> segs[k] != "" && Slash !in segs[k]
  }

  lemma {:induction false} NonEmptyAppend(a: seq<string>, b: seq<string>)
    ensures NonEmpty(a + b) == NonEmpty(a) + NonEmpty(b)
  {
    if a == [] {
      assert a + b == b;
    } else {
      assert (a + b)[1..] == a[1..] + b;
      NonEmptyAppend(a[1..], b);
    }
  }

  lemma {:induction false} NonEmptyOfProper(segs: seq<string>)
    requires ProperSegments(segs)
    ensures NonEmpty(segs) == segs
  {
    if segs != [] {
      NonEmptyOfProper(segs[1..]);
    }
  }

  /** Splitting a separator-free string yields that string alone. */
  lemma {:induction false} SplitWithoutSeparator(s: string, sep: char)
    requires sep !in s
    ensures Split(s, sep) == [s]
  {
    if s != [] {
      assert sep !in s[1..] by {
        forall k | 0 <= k < |s[1..]| ensures s[1..][k] != sep {
          assert s[1..][k] == s[k + 1];
        }
      }
      SplitWithoutSeparator(s[1..], sep);
      assert [s[0]] + s[1..] == s;
    }
  }

  /** Splitting `a + sep + b`, with no separator in `a`, yields `a` first. */
  lemma {:induction false} SplitAfterPiece(a: string, b: string, sep: char)
    requires sep !in a
    ensures Split(a + [sep] + b, sep) == [a] + Split(b, sep)
  {
    if a == [] {
      assert a + [sep] + b == [sep] + b;
      assert ([sep] + b)[1..] == b;
    } else {
      assert (a + [sep] + b)[1..] == a[1..] + [sep] + b;
      SplitAfterPiece(a[1..], b, sep);
      assert [a[0]] + a[1..] == a;
    }
  }

  /** Split undoes Join for a non-empty list of separator-free pieces. */
  lemma {:induction false} SplitJoin(parts: seq<string>, sep: char)
    requires |parts| >= 1 && SeparatorFree(parts, sep)
    ensures Split(Join(parts, sep), sep) == parts
  {
    if |parts| == 1 {
      SplitWithoutSeparator(parts[0], sep);
    } else {
      SplitJoin(parts[1..], sep);
      SplitAfterPiece(parts[0], Join(parts[1..], sep), sep);
    }
  }

  /** Join undoes Split: splitting loses nothing. */
  lemma {:induction false} JoinSplit(s: string, sep: char)
    ensures Join(Split(s, sep), sep) == s
  {
    if s != [] {
      JoinSplit(s[1..], sep);
      var rest := Split(s[1..], sep);
      if s[0] == sep {
        assert ([""] + rest)[1..] == rest;
      } else {
        var parts := [[s[0]] + rest[0]] + rest[1..];
        if |rest| > 1 {
          assert parts[1..] == rest[1..];
          assert Join(rest, sep) == rest[0] + [sep] + Join(rest[1..], sep);
        }
      }
    }
  }

  /** The first piece of a split is the text before the first separator. */
  lemma {:induction false} FirstPiece(s: string, sep: char)
    ensures var p := Split(s, sep)[0];
            |p| <= |s| && s[..|p|] == p && (|p| == |s| || s[|p|] == sep)
  {
    if s != [] && s[0] != sep {
      FirstPiece(s[1..], sep);
      var q := Split(s[1..], sep)[0];
      assert Split(s, sep)[0] == [s[0]] + q;
      assert s[..|q| + 1] == [s[0]] + s[1..][..|q|];
    }
  }

  /** A string holding the separator splits into at least two pieces: the
      text before its first separator, then the split of what follows it. */
  lemma SplitAtFirstSeparator(s: string, sep: char)
    requires sep in s
    ensures var i := |Split(s, sep)[0]|;
            && i < |s| && s[i] == sep && sep !in s[..i]
            && Split(s, sep) == [s[..i]] + Split(s[i + 1..], sep)
  {
    FirstPiece(s, sep);
    var i := |Split(s, sep)[0]|;
    assert s == s[..i] + [sep] + s[i + 1..];
    SplitAfterPiece(s[..i], s[i + 1..], sep);
  }

  /** The segments of "/" followed by joined segments are those segments. */
  lemma RootedSegments(segs: seq<string>)
    requires ProperSegments(segs)
    ensures Segments("/" + Join(segs, Slash)) == segs
  {
    var p := "/" + Join(segs, Slash);
    assert p[1..] == Join(segs, Slash);
    if segs == [] {
      assert p == [Slash] && p[1..] == [];
      assert Split(p, Slash) == ["", ""];
      assert NonEmpty(["", ""]) == NonEmpty([""]) == NonEmpty([]);
    } else {
      SplitJoin(segs, Slash);
      assert Split(p, Slash) == [""] + segs;
      NonEmptyAppend([""], segs);
      NonEmptyOfProper(segs);
    }
  }

  /** For a path that starts with exactly one '/', the raw second component of
      the split is its first segment. */
  lemma FirstSegmentIsSecondComponent(path: string)
    requires |path| >= 2 && path[0] == Slash && path[1] != Slash
    ensures |Segments(path)| >= 1 && |Split(path, Slash)| >= 2
    ensures Split(path, Slash)[1] == Segments(path)[0]
  {
    var rest := Split(path[1..], Slash);
    assert Split(path, Slash) == [""] + rest;
    assert path[1..][1..] == path[2..];
    var first := rest[0];
    assert first == [path[1]] + Split(path[2..], Slash)[0];
    NonEmptyAppend([""], rest);
    NonEmptyAppend([first], rest[1..]);
    assert rest == [first] + rest[1..];
  }
}
