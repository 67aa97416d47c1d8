/** Splitting and joining of strings as JavaScript's `split` and `join` do it. */
module Text {

  /** The pieces of `s` between the leftmost non-overlapping occurrences of `sep`. */
  function Split(s: string, sep: string): (parts: seq<string>)
    requires sep != ""
    ensures parts != []
    decreases |s|
  {
    if |s| < |sep| then [s]
    else if s[..|sep|] == sep then [""] + Split(s[|sep|..], sep)
    else Prepend(s[0], Split(s[1..], sep))
  }

  function Prepend(c: char, parts: seq<string>): (longer: seq<string>)
    requires parts != []
    ensures longer != []
  {
    [[c] + parts[0]] + parts[1..]
  }

  function Join(parts: seq<string>, sep: string): string {
    if parts == [] then ""
    else if |parts| == 1 then parts[0]
    else parts[0] + sep + Join(parts[1..], sep)
  }

  function Last<T>(s: seq<T>): T
    requires s != []
  {
    s[|s| - 1]
  }

  function Init<T>(s: seq<T>): seq<T>
    requires s != []
  {
    s[..|s| - 1]
  }

  lemma {:induction false} SplitSkip(c: char, s: string, sep: string)
    requires sep != "" && |sep| <= 1 + |s| && ([c] + s)[..|sep|] != sep
    ensures Split([c] + s, sep) == Prepend(c, Split(s, sep))
  {
    assert ([c] + s)[1..] == s;
  }

  ghost predicate Resumes(a: string, b: string, sep: string)
    requires sep != ""
  {
    Split(a + b, sep) == Init(Split(a, sep)) + Split(Last(Split(a, sep)) + b, sep)
  }

  /** Text appended later only affects the last piece, wherever the cut falls. */
  lemma {:induction false} SplitResumes(a: string, b: string, sep: string)
    requires sep != ""
    ensures Resumes(a, b, sep)
    decreases |a|
  {
    if |Split(a, sep)| == 1 {
      LonePiece(a, sep);
      assert Init([a]) == [] && Last([a]) == a;
    } else if a[..|sep|] == sep {
      SplitResumes(a[|sep|..], b, sep);
      ResumesAfterSep(a, b, sep);
    } else {
      SplitResumes(a[1..], b, sep);
      assert [a[0]] + a[1..] == a;
      ResumesAfterSkip(a[0], a[1..], b, sep);
    }
  }

  lemma {:induction false} ResumesAfterSep(a: string, b: string, sep: string)
    requires sep != "" && |sep| <= |a| && a[..|sep|] == sep && Resumes(a[|sep|..], b, sep)
    ensures Resumes(a, b, sep)
  {
    var n := |sep|;
    assert (a + b)[..n] == sep && (a + b)[n..] == a[n..] + b;
    var tail := Split(a[n..], sep);
    assert Split(a, sep) == [""] + tail;
    assert Init([""] + tail) == [""] + Init(tail) && Last([""] + tail) == Last(tail);
  }

  lemma {:induction false} SplitSkipLonger(c: char, s: string, b: string, sep: string)
    requires sep != "" && |sep| <= 1 + |s| && ([c] + s)[..|sep|] != sep
    ensures Split([c] + s + b, sep) == Prepend(c, Split(s + b, sep))
  {
    assert [c] + s + b == [c] + (s + b);
    assert ([c] + (s + b))[..|sep|] == ([c] + s)[..|sep|];
    SplitSkip(c, s + b, sep);
  }

  lemma {:induction false} ResumesAfterSkip(c: char, s: string, b: string, sep: string)
    requires sep != "" && |sep| <= 1 + |s| && ([c] + s)[..|sep|] != sep && Resumes(s, b, sep)
    requires |Split(s, sep)| >= 2
    ensures Resumes([c] + s, b, sep)
  {
    SplitSkip(c, s, sep);
    SplitSkipLonger(c, s, b, sep);
    PrependInit(c, Split(s, sep), Split(Last(Split(s, sep)) + b, sep));
  }

  lemma {:induction false} PrependInit(c: char, tail: seq<string>, more: seq<string>)
    requires |tail| >= 2 && more != []
    ensures Last(Prepend(c, tail)) == Last(tail)
    ensures Prepend(c, Init(tail) + more) == Init(Prepend(c, tail)) + more
  {
    var whole := Init(tail) + more;
    assert whole[0] == tail[0] && whole[1..] == tail[1..|tail| - 1] + more;
  }

  lemma {:induction false} LonePiece(s: string, sep: string)
    requires sep != "" && |Split(s, sep)| == 1
    ensures Split(s, sep) == [s]
    decreases |s|
  {
    if |s| >= |sep| {
      LonePiece(s[1..], sep);
      assert [s[0]] + s[1..] == s;
    }
  }

  /** A piece free of the separator's first character is cut off as a whole. */
  lemma {:induction false} SplitFirst(x: string, rest: string, sep: string)
    requires sep != "" && sep[0] !in x
    ensures Split(x + sep + rest, sep) == [x] + Split(rest, sep)
    decreases |x|
  {
    var s := x + sep + rest;
    if x == "" {
      assert s == sep + rest;
      assert s[..|sep|] == sep && s[|sep|..] == rest;
    } else {
      assert s[0] == x[0] && s[..|sep|][0] != sep[0];
      assert s == [x[0]] + (x[1..] + sep + rest);
      SplitFirst(x[1..], rest, sep);
      SplitSkip(x[0], x[1..] + sep + rest, sep);
      assert [x[0]] + x[1..] == x;
    }
  }

  lemma {:induction false} SplitNone(x: string, sep: string)
    requires sep != "" && sep[0] !in x
    ensures Split(x, sep) == [x]
    decreases |x|
  {
    if |x| >= |sep| {
      assert x[..|sep|][0] == x[0];
      SplitNone(x[1..], sep);
      assert [x[0]] + x[1..] == x;
    }
  }

  /** Splitting undoes joining when no piece contains the separator's first character. */
  lemma {:induction false} SplitJoin(parts: seq<string>, sep: string)
    requires sep != "" && parts != [] && forall i :: 0 <= i < |parts| ==> sep[0] !in parts[i]
    ensures Split(Join(parts, sep), sep) == parts
  {
    if |parts| == 1 {
      SplitNone(parts[0], sep);
    } else {
      SplitJoin(parts[1..], sep);
      SplitFirst(parts[0], Join(parts[1..], sep), sep);
    }
  }
}
