/** Delimiter search and the sequential split of a text into tuples. */
module TupleText {
  import opened Options

  /** The first position of `d` in `s` at or after `i`. */
  function FindFrom(d: char, s: string, i: nat): (r: Option<nat>)
    requires i <= |s|
    ensures r.None? ==> d !in s[i..]
    ensures r.Some? ==> i <= r.value < |s| && s[r.value] == d && d !in s[i..r.value]
    decreases |s| - i
  {
    if i == |s| then None
    else if s[i] == d then Some(i)
    else
      assert s[i..] == [s[i]] + s[i + 1..];
      var r := FindFrom(d, s, i + 1);
      assert r.Some? ==> s[i..r.value] == [s[i]] + s[i + 1..r.value];
      r
  }

  /** The last position of `d` in `s`. */
  function FindLast(d: char, s: string): (r: nat)
    requires d in s
    ensures r < |s| && s[r] == d && d !in s[r + 1..]
  {
    var k := |s| - 1;
    if s[k] == d then k
    else
      assert s == s[..k] + [s[k]];
      var r := FindLast(d, s[..k]);
      assert s[r + 1..] == s[..k][r + 1..] + [s[k]];
      r
  }

  /** The pieces after one more character. */
  function Extend(d: char, pieces: seq<string>, c: char): (r: seq<string>)
    requires |pieces| > 0
    ensures |r| > 0
  {
    if c == d then pieces + [""] else pieces[..|pieces| - 1] + [pieces[|pieces| - 1] + [c]]
  }

  /** The tuples of a text: the specification that parallel parsing has to meet. */
  function Split(d: char, s: string): (r: seq<string>)
    ensures |r| > 0
  {
    if s == "" then [""] else Extend(d, Split(d, s[..|s| - 1]), s[|s| - 1])
  }

  function Join(d: char, pieces: seq<string>): (s: string)
    requires |pieces| > 0
  {
    if |pieces| == 1 then pieces[0] else Join(d, pieces[..|pieces| - 1]) + [d] + pieces[|pieces| - 1]
  }

  lemma JoinExtend(d: char, pieces: seq<string>, c: char)
    requires |pieces| > 0
    ensures Join(d, Extend(d, pieces, c)) == Join(d, pieces) + [c]
  {
    var r := Extend(d, pieces, c);
    if c == d {
      assert r[..|r| - 1] == pieces;
    } else {
      assert r[..|r| - 1] == pieces[..|pieces| - 1];
    }
  }

  lemma ExtendFree(d: char, pieces: seq<string>, c: char)
    requires |pieces| > 0 && forall piece | piece in pieces :: d !in piece
    ensures forall piece | piece in Extend(d, pieces, c) :: d !in piece
  {
    if c != d {
      assert d !in pieces[|pieces| - 1] + [c];
    }
  }

  /** `Split` is the inverse of joining with delimiters, and no piece holds one. */
  lemma {:induction false} SplitJoin(d: char, s: string)
    ensures Join(d, Split(d, s)) == s
    ensures forall piece | piece in Split(d, s) :: d !in piece
  {
    hide Extend;
    if s != "" {
      var pieces, c := Split(d, s[..|s| - 1]), s[|s| - 1];
      SplitJoin(d, s[..|s| - 1]);
      JoinExtend(d, pieces, c);
      ExtendFree(d, pieces, c);
      assert s == s[..|s| - 1] + [c];
    }
  }

  // ------------------------------------------------------- splitting a concatenation

  /** The last piece of `a` and the first of `b` are one piece. */
  function Merge(a: seq<string>, b: seq<string>): (r: seq<string>)
    requires |a| > 0 && |b| > 0
    ensures |r| > 0
  {
    a[..|a| - 1] + [a[|a| - 1] + b[0]] + b[1..]
  }

  lemma MergeExtend(d: char, a: seq<string>, b: seq<string>, c: char)
    requires |a| > 0 && |b| > 0
    ensures Merge(a, Extend(d, b, c)) == Extend(d, Merge(a, b), c)
  {
    if c != d {
      if |b| == 1 {
        assert a[|a| - 1] + (b[0] + [c]) == (a[|a| - 1] + b[0]) + [c];
      } else {
        assert Extend(d, b, c)[1..] == b[1..][..|b| - 2] + [b[|b| - 1] + [c]];
      }
    }
  }

  lemma MergeOpen(a: seq<string>, b: seq<string>)
    requires |b| > 0
    ensures Merge(a + [""], b) == a + b
  {
    assert "" + b[0] == b[0];
    assert b == [b[0]] + b[1..];
  }

  lemma MergeEmpty(a: seq<string>)
    requires |a| > 0
    ensures Merge(a, [""]) == a
  {
    assert a[|a| - 1] + "" == a[|a| - 1];
  }

  lemma {:induction false} SplitConcat(d: char, s: string, t: string)
    ensures Split(d, s + t) == Merge(Split(d, s), Split(d, t))
  {
    hide Merge, Extend;
    var a := Split(d, s);
    if t == "" {
      assert s + t == s;
      MergeEmpty(a);
    } else {
      var k := |t| - 1;
      SplitConcat(d, s, t[..k]);
      assert (s + t)[..|s + t| - 1] == s + t[..k];
      MergeExtend(d, a, Split(d, t[..k]), t[k]);
    }
  }

  lemma {:induction false} SplitPlain(d: char, s: string)
    requires d !in s
    ensures Split(d, s) == [s]
  {
    if s != "" {
      var k := |s| - 1;
      assert s == s[..k] + [s[k]];
      SplitPlain(d, s[..k]);
    }
  }

  lemma SplitDelimiter(d: char, s: string)
    ensures Split(d, s + [d]) == Split(d, s) + [""]
  {
    assert (s + [d])[..|s|] == s;
  }

  /** The first piece ends at the first delimiter. */
  lemma SplitFirst(d: char, s: string, i: nat)
    requires i < |s| && s[i] == d && d !in s[..i]
    ensures Split(d, s) == [s[..i]] + Split(d, s[i + 1..])
  {
    hide Split, Merge;
    SplitPlain(d, s[..i]);
    SplitDelimiter(d, s[..i]);
    SplitConcat(d, s[..i] + [d], s[i + 1..]);
    assert s == (s[..i] + [d]) + s[i + 1..];
    MergeOpen([s[..i]], Split(d, s[i + 1..]));
  }

  /** The last piece starts behind the last delimiter. */
  lemma SplitLast(d: char, s: string, i: nat)
    requires i < |s| && s[i] == d && d !in s[i + 1..]
    ensures Split(d, s) == Split(d, s[..i]) + [s[i + 1..]]
  {
    hide Split, Merge;
    SplitDelimiter(d, s[..i]);
    SplitPlain(d, s[i + 1..]);
    SplitConcat(d, s[..i] + [d], s[i + 1..]);
    assert s == (s[..i] + [d]) + s[i + 1..];
    MergeOpen(Split(d, s[..i]), [s[i + 1..]]);
  }
}
