/** `path.split('/')` as JavaScript defines it for a one-character separator:
    every `/` ends one piece and starts the next, so a string with n slashes
    gives n + 1 pieces, some of them possibly empty. */
module PathSplit {

  const Sep: char := '/'

  function Split(s: string): (parts: seq<string>)
    ensures |parts| >= 1
    ensures forall i :: 0 <= i < |parts| ==> Sep !in parts[i]
  {
    if s == [] then [[]]
    else
      var rest := Split(s[1..]);
      if s[0] == Sep then [[]] + rest
      else [[s[0]] + rest[0]] + rest[1..]
  }

  /** The inverse of `Split`: the pieces glued back with `/`. */
  function Join(parts: seq<string>): string
    requires |parts| >= 1
  {
    if |parts| == 1 then parts[0] else parts[0] + [Sep] + Join(parts[1..])
  }

  /** `seg` is the whole piece of `s` that starts at `start`: it holds no `/`,
      and it runs up to the end of `s` or up to the next `/`. */
  ghost predicate IsSegmentAt(s: string, start: int, seg: string)
  {
    && 0 <= start
    && start + |seg| <= |s|
    && s[start..start + |seg|] == seg
    && Sep !in seg
    && (start + |seg| == |s| || s[start + |seg|] == Sep)
  }

  /** A piece is determined by where it starts. */
  lemma SegmentUnique(s: string, start: int, a: string, b: string)
    requires IsSegmentAt(s, start, a) && IsSegmentAt(s, start, b)
    ensures a == b
  {
  }

  lemma {:induction false} JoinSplit(s: string)
    ensures Join(Split(s)) == s
  {
    if s != [] {
      var rest := Split(s[1..]);
      JoinSplit(s[1..]);
      if s[0] != Sep && |rest| > 1 {
        assert Join(rest) == rest[0] + [Sep] + Join(rest[1..]);
        assert Split(s)[1..] == rest[1..];
      }
    }
  }

  lemma {:induction false} SplitNoSep(a: string)
    requires Sep !in a
    ensures Split(a) == [a]
  {
    if a != [] {
      SplitNoSep(a[1..]);
      assert [a[0]] + a[1..] == a;
    }
  }

  lemma {:induction false} SplitAppend(a: string, b: string)
    requires Sep !in a
    ensures Split(a + [Sep] + b) == [a] + Split(b)
  {
    var s := a + [Sep] + b;
    if a == [] {
      assert s[1..] == b;
    } else {
      assert s[1..] == a[1..] + [Sep] + b;
      SplitAppend(a[1..], b);
      assert [a[0]] + a[1..] == a;
    }
  }

  lemma {:induction false} SplitJoin(parts: seq<string>)
    requires |parts| >= 1
    requires forall i :: 0 <= i < |parts| ==> Sep !in parts[i]
    ensures Split(Join(parts)) == parts
  {
    if |parts| == 1 {
      SplitNoSep(parts[0]);
    } else {
      SplitJoin(parts[1..]);
      SplitAppend(parts[0], Join(parts[1..]));
      assert parts == [parts[0]] + parts[1..];
    }
  }

  /** The first piece is the text before the first `/`, there is a second
      piece exactly when there is a `/`, and the later pieces are the split of
      what follows that `/`. */
  lemma {:induction false} SplitHead(s: string)
    ensures IsSegmentAt(s, 0, Split(s)[0])
    ensures |Split(s)| > 1 <==> Sep in s
    ensures |Split(s)| > 1 ==> Split(s)[1..] == Split(s[|Split(s)[0]| + 1..])
  {
    if s != [] && s[0] != Sep {
      var t := s[1..];
      SplitHead(t);
      var h' := Split(t)[0];
      var h := [s[0]] + h';
      assert Split(s)[0] == h;
      assert s[..|h|] == [s[0]] + t[..|h'|];
      assert |h| < |s| ==> s[|h|] == t[|h'|];
      assert Sep in s <==> Sep in t by {
        assert s == [s[0]] + t;
      }
      if |h| < |s| {
        assert t[|h'| + 1..] == s[|h| + 1..];
      }
    }
  }

  /** A piece of a suffix is a piece of the whole string. */
  lemma SegmentOfSuffix(s: string, k: int, seg: string)
    requires 0 <= k <= |s|
    requires IsSegmentAt(s[k..], 0, seg)
    ensures IsSegmentAt(s, k, seg)
  {
  }
}
