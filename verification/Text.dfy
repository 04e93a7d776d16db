/** Splitting text at a separator character, and the order of texts. */
module Text {

  /** The position of the first `c`, or the length when there is none. */
  function IndexOf(s: string, c: char): (i: nat)
    ensures i <= |s| && (i < |s| ==> s[i] == c) && c !in s[..i]
  {
    if s == [] || s[0] == c then 0
    else
      var rest := IndexOf(s[1..], c);
      assert s[..rest + 1] == [s[0]] + s[1..][..rest];
      rest + 1
  }

  /** The pieces of `s` between separators: at least one, as for Python's and JavaScript's split. */
  function Split(s: string, c: char): (pieces: seq<string>)
    ensures pieces != []
    decreases |s|
  {
    var i := IndexOf(s, c);
    if i == |s| then [s] else [s[..i]] + Split(s[i + 1..], c)
  }

  lemma {:induction false} FirstIndex(a: string, c: char, rest: string)
    requires c !in a
    ensures IndexOf(a + [c] + rest, c) == |a|
  {
    if a == [] {
      assert ([] + [c] + rest)[0] == c;
    } else {
      assert (a + [c] + rest)[0] == a[0] && (a + [c] + rest)[1..] == a[1..] + [c] + rest;
      FirstIndex(a[1..], c, rest);
    }
  }

  /** Text without the separator is the first piece. */
  lemma SplitFirst(a: string, c: char, rest: string)
    requires c !in a
    ensures Split(a + [c] + rest, c) == [a] + Split(rest, c)
  {
    FirstIndex(a, c, rest);
    assert (a + [c] + rest)[|a| + 1..] == rest;
    assert (a + [c] + rest)[..|a|] == a;
  }

  lemma SplitWhole(a: string, c: char)
    requires c !in a
    ensures Split(a, c) == [a]
  {
  }

  function Join(pieces: seq<string>, c: char): string {
    if pieces == [] then ""
    else if |pieces| == 1 then pieces[0]
    else pieces[0] + [c] + Join(pieces[1..], c)
  }

  /** Joining the pieces gives the text back, and no piece holds a separator. */
  lemma {:induction false} SplitThenJoin(s: string, c: char)
    ensures Join(Split(s, c), c) == s
    ensures forall piece :: piece in Split(s, c) ==> c !in piece
    decreases |s|
  {
    var i := IndexOf(s, c);
    if i < |s| {
      SplitThenJoin(s[i + 1..], c);
      assert Split(s, c)[1..] == Split(s[i + 1..], c);
      assert s == s[..i] + [c] + s[i + 1..];
    }
  }

  /** And splitting what was joined gives the pieces back. */
  lemma {:induction false} JoinThenSplit(pieces: seq<string>, c: char)
    requires pieces != [] && forall piece :: piece in pieces ==> c !in piece
    ensures Split(Join(pieces, c), c) == pieces
  {
    if |pieces| == 1 {
      SplitWhole(pieces[0], c);
    } else {
      SplitFirst(pieces[0], c, Join(pieces[1..], c));
      JoinThenSplit(pieces[1..], c);
    }
  }

  // ---------------------------------------------------------------- the order of texts

  /** Texts in order of their code points, a beginning before what continues it. */
  predicate Less(a: string, b: string) {
    if b == [] then false
    else if a == [] then true
    else a[0] < b[0] || (a[0] == b[0] && Less(a[1..], b[1..]))
  }

  lemma {:induction false} LessIsTransitive(a: string, b: string, c: string)
    requires Less(a, b) && Less(b, c)
    ensures Less(a, c)
  {
    if a != [] && a[0] == b[0] == c[0] {
      LessIsTransitive(a[1..], b[1..], c[1..]);
    }
  }

  lemma {:induction false} LessIsTotal(a: string, b: string)
    ensures Less(a, b) || a == b || Less(b, a)
    ensures !(Less(a, b) && Less(b, a)) && !Less(a, a)
  {
    if a != [] && b != [] {
      LessIsTotal(a[1..], b[1..]);
      LessIsTotal(a[1..], a[1..]);
      if a[0] == b[0] && a[1..] == b[1..] {
        assert a == [a[0]] + a[1..] && b == [b[0]] + b[1..];
      }
    } else if a != [] {
      LessIsTotal(a[1..], a[1..]);
    }
  }

  predicate AtMost(a: string, b: string) {
    a == b || Less(a, b)
  }

  /** A common beginning does not matter. */
  lemma {:induction false} LessBehindPrefix(p: string, a: string, b: string)
    ensures Less(p + a, p + b) <==> Less(a, b)
    ensures AtMost(p + a, p + b) <==> AtMost(a, b)
  {
    if p == [] {
      assert p + a == a && p + b == b;
    } else {
      LessBehindPrefix(p[1..], a, b);
      assert (p + a)[1..] == p[1..] + a && (p + b)[1..] == p[1..] + b;
      assert p + a == [p[0]] + (p[1..] + a) && p + b == [p[0]] + (p[1..] + b);
    }
  }

  /** A text between two that begin alike begins like them. */
  lemma {:induction false} SqueezedPrefix(p: string, a: string, b: string, t: string)
    requires AtMost(p + a, t) && AtMost(t, p + b)
    ensures p <= t
  {
    if p != [] {
      assert (p + a)[1..] == p[1..] + a && (p + b)[1..] == p[1..] + b;
      assert t != [] && t[0] == p[0];
      SqueezedPrefix(p[1..], a, b, t[1..]);
    }
  }
}
