/** The JavaScript string operations the chat core relies on: `split(" ")`,
    the join that inverts it, and `trim()`. Strings are sequences of Unicode
    scalar values. */
module Text {

  datatype Option<+T> = None | Some(value: T)

  /** `s.split(" ")`: the pieces between single spaces, empty pieces included. */
  function SplitOnSpace(s: string): (r: seq<string>)
    ensures |r| >= 1
    ensures forall i :: 0 <= i < |r| ==> ' ' !in r[i]
  {
    if s == [] then [""]
    else
      var rest := SplitOnSpace(s[1..]);
      if s[0] == ' ' then [""] + rest
      else [[s[0]] + rest[0]] + rest[1..]
  }

  /** `pieces.join(" ")`. */
  function JoinWithSpace(pieces: seq<string>): (r: string)
    requires |pieces| >= 1
  {
    if |pieces| == 1 then pieces[0]
    else pieces[0] + " " + JoinWithSpace(pieces[1..])
  }

  /** A string without a space splits into itself. */
  lemma {:induction false} SplitWithoutSpace(s: string)
    requires ' ' !in s
    ensures SplitOnSpace(s) == [s]
  {
    if s != [] {
      assert s[0] in s;
      assert forall c :: c in s[1..] ==> c in s;
      SplitWithoutSpace(s[1..]);
      assert [s[0]] + s[1..] == s;
    }
  }

  /** One step of the split: the first character, then the rest. */
  lemma SplitCons(ch: char, t: string)
    ensures SplitOnSpace([ch] + t)
         == if ch == ' ' then [""] + SplitOnSpace(t)
            else [[ch] + SplitOnSpace(t)[0]] + SplitOnSpace(t)[1..]
  {
    assert ([ch] + t)[0] == ch && ([ch] + t)[1..] == t;
  }

  lemma ConsAround(a: string, c: string)
    requires a != []
    ensures a == [a[0]] + a[1..]
    ensures a + " " + c == [a[0]] + (a[1..] + " " + c)
  {
  }

  lemma ConsAssoc<T>(x: T, left: seq<T>, right: seq<T>)
    ensures [x] + (left + right) == ([x] + left) + right
  {
  }

  /** Extending the first piece of a list of pieces commutes with appending more pieces. */
  lemma ExtendFirst<T>(x: seq<T>, left: seq<seq<T>>, right: seq<seq<T>>)
    requires |left| >= 1
    ensures [x + (left + right)[0]] + (left + right)[1..] == ([x + left[0]] + left[1..]) + right
  {
    assert (left + right)[0] == left[0];
    assert (left + right)[1..] == left[1..] + right;
  }

  /** Splitting at a separating space splits each side independently. */
  lemma {:induction false} SplitAtSpace(a: string, c: string)
    ensures SplitOnSpace(a + " " + c) == SplitOnSpace(a) + SplitOnSpace(c)
  {
    if a == [] {
      assert a + " " + c == [' '] + c;
      SplitCons(' ', c);
    } else {
      var t := a[1..];
      ConsAround(a, c);
      SplitAtSpace(t, c);
      SplitCons(a[0], t + " " + c);
      SplitCons(a[0], t);
      var left := SplitOnSpace(t);
      var right := SplitOnSpace(c);
      if a[0] == ' ' {
        ConsAssoc("", left, right);
      } else {
        ExtendFirst([a[0]], left, right);
      }
    }
  }

  /** Joining the pieces of a split gives back the original string. */
  lemma {:induction false} JoinSplit(s: string)
    ensures JoinWithSpace(SplitOnSpace(s)) == s
  {
    if s != [] {
      var rest := SplitOnSpace(s[1..]);
      JoinSplit(s[1..]);
      if s[0] == ' ' {
        assert ([""] + rest)[1..] == rest;
        assert JoinWithSpace([""] + rest) == "" + " " + JoinWithSpace(rest);
      } else {
        var r := [[s[0]] + rest[0]] + rest[1..];
        if |rest| == 1 {
          assert JoinWithSpace(r) == [s[0]] + rest[0];
        } else {
          assert r[1..] == rest[1..];
          assert JoinWithSpace(r) == [s[0]] + (rest[0] + " " + JoinWithSpace(rest[1..]));
        }
        assert [s[0]] + s[1..] == s;
      }
    }
  }

  /** Splitting a join of space-free pieces gives back the pieces. */
  lemma {:induction false} SplitJoin(pieces: seq<string>)
    requires |pieces| >= 1
    requires forall i :: 0 <= i < |pieces| ==> ' ' !in pieces[i]
    ensures SplitOnSpace(JoinWithSpace(pieces)) == pieces
  {
    SplitWithoutSpace(pieces[0]);
    if |pieces| > 1 {
      SplitJoin(pieces[1..]);
      SplitAtSpace(pieces[0], JoinWithSpace(pieces[1..]));
      assert [pieces[0]] + pieces[1..] == pieces;
    }
  }

  /** ECMAScript's WhiteSpace and LineTerminator code points, which `trim()` removes. */
  predicate IsJsWhitespace(c: char) {
    c == '\t' || c == '\n' || c == '\U{000B}' || c == '\U{000C}' || c == '\r' || c == ' '
    || c == '\U{00A0}' || c == '\U{1680}' || ('\U{2000}' <= c <= '\U{200A}')
    || c == '\U{2028}' || c == '\U{2029}' || c == '\U{202F}' || c == '\U{205F}'
    || c == '\U{3000}' || c == '\U{FEFF}'
  }

  function TrimStart(s: string): (r: string) {
    if s != [] && IsJsWhitespace(s[0]) then TrimStart(s[1..]) else s
  }

  function TrimEnd(s: string): (r: string) {
    if s != [] && IsJsWhitespace(s[|s| - 1]) then TrimEnd(s[..|s| - 1]) else s
  }

  /** `s.trim()`. */
  function Trim(s: string): (r: string) {
    TrimEnd(TrimStart(s))
  }

  predicate AllWhitespace(s: string) {
    forall i :: 0 <= i < |s| ==> IsJsWhitespace(s[i])
  }

  /** No whitespace at either end. */
  predicate Trimmed(s: string) {
    s == [] || (!IsJsWhitespace(s[0]) && !IsJsWhitespace(s[|s| - 1]))
  }

  lemma {:induction false} TrimStartIsSuffix(s: string)
    ensures |TrimStart(s)| <= |s|
    ensures TrimStart(s) == s[|s| - |TrimStart(s)|..]
    ensures AllWhitespace(s[..|s| - |TrimStart(s)|])
    ensures TrimStart(s) == [] || !IsJsWhitespace(TrimStart(s)[0])
  {
    if s != [] && IsJsWhitespace(s[0]) {
      TrimStartIsSuffix(s[1..]);
      var k := |s| - |TrimStart(s)|;
      assert s[..k] == [s[0]] + s[1..][..k - 1];
    }
  }

  lemma {:induction false} TrimEndIsPrefix(s: string)
    ensures |TrimEnd(s)| <= |s|
    ensures TrimEnd(s) == s[..|TrimEnd(s)|]
    ensures AllWhitespace(s[|TrimEnd(s)|..])
    ensures TrimEnd(s) == [] || !IsJsWhitespace(TrimEnd(s)[|TrimEnd(s)| - 1])
  {
    if s != [] && IsJsWhitespace(s[|s| - 1]) {
      var init := s[..|s| - 1];
      TrimEndIsPrefix(init);
      var k := |TrimEnd(s)|;
      assert s[k..] == init[k..] + [s[|s| - 1]];
    }
  }

  /** `trim()` removes whitespace at the ends and nothing else:
      `s` is leading whitespace, then `Trim(s)`, then trailing whitespace. */
  lemma TrimShape(s: string) returns (k: nat)
    ensures Trimmed(Trim(s))
    ensures k + |Trim(s)| <= |s| && s[k..k + |Trim(s)|] == Trim(s)
    ensures AllWhitespace(s[..k]) && AllWhitespace(s[k + |Trim(s)|..])
  {
    var a := TrimStart(s);
    TrimStartIsSuffix(s);
    TrimEndIsPrefix(a);
    k := |s| - |a|;
    var r := TrimEnd(a);
    if r != [] {
      assert r[0] == a[0];
    }
    assert s[k..k + |r|] == a[..|r|];
    assert s[k + |r|..] == a[|r|..];
  }

  /** A string is its own trim exactly when it has no whitespace at either end. */
  lemma TrimFixpoint(s: string)
    ensures Trim(s) == s <==> Trimmed(s)
  {
    var _ := TrimShape(s);
    if Trimmed(s) && s != [] {
      assert TrimStart(s) == s;
      assert TrimEnd(s) == s;
    }
  }

  /** Trimming twice is trimming once. */
  lemma TrimIdempotent(s: string)
    ensures Trim(Trim(s)) == Trim(s)
  {
    var _ := TrimShape(s);
    TrimFixpoint(Trim(s));
  }

  /** Trailing whitespace does not change the trim. */
  lemma {:induction false} TrimAppendWhitespace(s: string, c: char)
    requires IsJsWhitespace(c)
    ensures Trim(s + [c]) == Trim(s)
  {
    TrimStartAppend(s, c);
    var a := TrimStart(s);
    if a != [] {
      assert (a + [c])[..|a + [c]| - 1] == a;
    }
  }

  lemma {:induction false} TrimStartAppend(s: string, c: char)
    requires IsJsWhitespace(c)
    ensures TrimStart(s + [c]) == if TrimStart(s) == [] then [] else TrimStart(s) + [c]
  {
    if s == [] {
      assert TrimStart([c]) == TrimStart([c][1..]);
    } else {
      assert (s + [c])[0] == s[0];
      assert (s + [c])[1..] == s[1..] + [c];
      if IsJsWhitespace(s[0]) {
        TrimStartAppend(s[1..], c);
      }
    }
  }
}
