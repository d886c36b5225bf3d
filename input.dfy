/**
  The button handler (MainActivity.java:40-52) removes every whitespace
  character from both inputs (`replaceAll("\\s", "")`) before comparing
  them. Reading the text fields and displaying the report are left out.
 */
module Input {
  import opened Symbols
  import opened Checker

  /** The input without its whitespace characters, the others kept in order. */
  function StripWhitespace(s: seq<char>): (r: seq<char>)
    ensures |r| <= |s|
    decreases |s|
  {
    if s == [] then []
    else if IsWhitespace(s[0]) then StripWhitespace(s[1..])
    else [s[0]] + StripWhitespace(s[1..])
  }

  predicate NoWhitespace(s: seq<char>) {
    forall i :: 0 <= i < |s| ==> !IsWhitespace(s[i])
  }

  /** A single character is dropped exactly when it is whitespace. */
  lemma StripSingle(c: char)
    ensures StripWhitespace([c]) == if IsWhitespace(c) then [] else [c]
  {
    assert [c][1..] == [];
  }

  /** Stripping a concatenation strips each part. */
  lemma {:induction false} StripAppend(a: seq<char>, b: seq<char>)
    ensures StripWhitespace(a + b) == StripWhitespace(a) + StripWhitespace(b)
    decreases |a|
  {
    if a == [] {
      assert a + b == b;
    } else {
      assert (a + b)[0] == a[0] && (a + b)[1..] == a[1..] + b;
      StripAppend(a[1..], b);
    }
  }

  /** The result holds no whitespace. */
  lemma {:induction false} StripRemovesWhitespace(s: seq<char>)
    ensures NoWhitespace(StripWhitespace(s))
    decreases |s|
  {
    if s != [] {
      StripRemovesWhitespace(s[1..]);
      var t := StripWhitespace(s[1..]);
      if !IsWhitespace(s[0]) {
        assert forall i :: 1 <= i < |t| + 1 ==> ([s[0]] + t)[i] == t[i - 1];
      }
    }
  }

  /** An input without whitespace is left as it is. */
  lemma {:induction false} StripKeepsClean(s: seq<char>)
    requires NoWhitespace(s)
    ensures StripWhitespace(s) == s
    decreases |s|
  {
    if s != [] {
      assert !IsWhitespace(s[0]);
      assert NoWhitespace(s[1..]) by {
        forall i | 0 <= i < |s[1..]|
          ensures !IsWhitespace(s[1..][i])
        {
          assert s[1..][i] == s[i + 1];
        }
      }
      StripKeepsClean(s[1..]);
      assert [s[0]] + s[1..] == s;
    }
  }

  /** Stripping twice is stripping once. */
  lemma StripIdempotent(s: seq<char>)
    ensures StripWhitespace(StripWhitespace(s)) == StripWhitespace(s)
  {
    StripRemovesWhitespace(s);
    StripKeepsClean(StripWhitespace(s));
  }

  /** A whitespace character anywhere in an input does not change what
      the handler compares, so it does not change the report. */
  lemma WhitespaceIgnored(a: seq<char>, c: char, b: seq<char>, e2: seq<char>)
    requires IsWhitespace(c)
    ensures StripWhitespace(a + [c] + b) == StripWhitespace(a + b)
    ensures Check(StripWhitespace(a + [c] + b), StripWhitespace(e2)) ==
            Check(StripWhitespace(a + b), StripWhitespace(e2))
  {
    StripAppend(a + [c], b);
    StripAppend(a, [c]);
    StripAppend(a, b);
    StripSingle(c);
    assert StripWhitespace(a) + [] == StripWhitespace(a);
  }
}
