/**
  String primitives of the .NET base library that the bank node relies on:
  white-space classification, Trim, Split on one separator character,
  string.Join, StartsWith and (ASCII) upper-casing.  Strings are seq<char>.
*/
module Text {

  /** The characters char.IsWhiteSpace accepts: the Unicode space separators, the line
      and paragraph separators, and the control characters U+0009..U+000D and U+0085. */
  const WhiteSpace: set<char> := {
    '\U{0009}', '\U{000A}', '\U{000B}', '\U{000C}', '\U{000D}', '\U{0020}', '\U{0085}',
    '\U{00A0}', '\U{1680}', '\U{2000}', '\U{2001}', '\U{2002}', '\U{2003}', '\U{2004}',
    '\U{2005}', '\U{2006}', '\U{2007}', '\U{2008}', '\U{2009}', '\U{200A}', '\U{2028}',
    '\U{2029}', '\U{202F}', '\U{205F}', '\U{3000}'}

  predicate IsWhiteSpace(c: char)
  {
    c in WhiteSpace
  }

  /** string.IsNullOrWhiteSpace for a non-null string. */
  predicate IsBlank(s: string)
  {
    forall i | 0 <= i < |s| :: IsWhiteSpace(s[i])
  }

  /** Neither a sign nor a decimal digit is white space. */
  lemma SignOrDigitIsNotSpace(c: char)
    requires c == '-' || c == '+' || '0' <= c <= '9'
    ensures !IsWhiteSpace(c)
  {
  }

  predicate StartsWith(s: string, prefix: string)
  {
    |prefix| <= |s| && s[..|prefix|] == prefix
  }

  function TrimStart(s: string): (t: string)
    ensures |t| <= |s| && t == s[|s| - |t|..]
    ensures t == [] || !IsWhiteSpace(t[0])
    ensures IsBlank(s[..|s| - |t|])
  {
    if |s| > 0 && IsWhiteSpace(s[0]) then TrimStart(s[1..]) else s
  }

  function TrimEnd(s: string): (t: string)
    ensures |t| <= |s| && t == s[..|t|]
    ensures t == [] || !IsWhiteSpace(t[|t| - 1])
    ensures IsBlank(s[|t|..])
  {
    if |s| > 0 && IsWhiteSpace(s[|s| - 1]) then
      var t := TrimEnd(s[..|s| - 1]);
      BlankAppend(s, |t|);
      t
    else s
  }

  /** A blank stretch followed by a white-space character gives a blank stretch. */
  lemma BlankAppend(s: string, k: nat)
    requires k < |s| && IsWhiteSpace(s[|s| - 1]) && IsBlank(s[..|s| - 1][k..])
    ensures IsBlank(s[k..])
  {
    forall i | 0 <= i < |s| - k ensures IsWhiteSpace(s[k..][i]) {
      if i < |s| - 1 - k {
        assert s[k..][i] == s[..|s| - 1][k..][i];
      }
    }
  }

  /** string.Trim(): drops leading and trailing white space. */
  function Trim(s: string): string
  {
    TrimEnd(TrimStart(s))
  }

  /** The trimmed string is empty exactly for blank input. */
  lemma TrimBlank(s: string)
    ensures Trim(s) == [] <==> IsBlank(s)
  {
    var a := TrimStart(s);
    var k := |s| - |a|;
    if TrimEnd(a) == [] {
      assert a == [];
      assert s == s[..k];
    } else {
      assert TrimEnd(a)[0] == a[0] == s[k];
      assert !IsWhiteSpace(s[k]);
    }
  }

  /** A non-empty trimmed string begins and ends with a non-white-space character. */
  lemma TrimEnds(s: string)
    ensures Trim(s) != [] ==> !IsWhiteSpace(Trim(s)[0]) && !IsWhiteSpace(Trim(s)[|Trim(s)| - 1])
  {
    var a := TrimStart(s);
    var t := TrimEnd(a);
    if t != [] {
      assert t[0] == a[0];
    }
  }

  /** The trimmed string is a slice of the input. */
  lemma TrimSlice(s: string)
    ensures exists i, j | 0 <= i <= j <= |s| :: Trim(s) == s[i..j]
  {
    var a := TrimStart(s);
    var t := TrimEnd(a);
    var k := |s| - |a|;
    assert a == s[k..];
    assert t == s[k..k + |t|];
  }

  /** Trimming text that already starts and ends with non-white-space changes nothing. */
  lemma TrimNoOp(s: string)
    requires s != [] && !IsWhiteSpace(s[0]) && !IsWhiteSpace(s[|s| - 1])
    ensures Trim(s) == s
  {
  }

  /** string.Split(sep): the pieces between occurrences of sep, empty ones kept. */
  function Split(s: string, sep: char): (parts: seq<string>)
    ensures |parts| >= 1
    ensures forall k | 0 <= k < |parts| :: sep !in parts[k]
  {
    if |s| == 0 then [""]
    else
      var rest := Split(s[1..], sep);
      if s[0] == sep then [""] + rest
      else [[s[0]] + rest[0]] + rest[1..]
  }

  /** string.Join(sep, parts). */
  function Join(sep: string, parts: seq<string>): string
  {
    if |parts| == 0 then ""
    else if |parts| == 1 then parts[0]
    else parts[0] + sep + Join(sep, parts[1..])
  }

  /** Split with StringSplitOptions.RemoveEmptyEntries: the empty pieces are dropped. */
  function RemoveEmpty(parts: seq<string>): (kept: seq<string>)
    ensures forall k | 0 <= k < |kept| :: kept[k] != [] && kept[k] in parts
  {
    if |parts| == 0 then []
    else if parts[0] == [] then RemoveEmpty(parts[1..])
    else [parts[0]] + RemoveEmpty(parts[1..])
  }

  /** Dropping the empty pieces keeps a separator out of every piece left. */
  lemma {:induction false} RemoveEmptyWithout(parts: seq<string>, sep: char)
    requires forall k | 0 <= k < |parts| :: sep !in parts[k]
    ensures forall k | 0 <= k < |RemoveEmpty(parts)| :: sep !in RemoveEmpty(parts)[k]
  {
    if |parts| > 0 {
      assert forall k | 0 <= k < |parts[1..]| :: parts[1..][k] == parts[k + 1];
      RemoveEmptyWithout(parts[1..], sep);
    }
  }

  function UpperChar(c: char): char
  {
    if 'a' <= c <= 'z' then (c as int - 32) as char else c
  }

  /** ToUpper, restricted to the ASCII letters. */
  function ToUpper(s: string): (u: string)
    ensures |u| == |s|
    ensures forall i | 0 <= i < |s| :: u[i] == UpperChar(s[i])
  {
    seq(|s|, i requires 0 <= i < |s| => UpperChar(s[i]))
  }

  lemma ToUpperIdempotent(s: string)
    ensures ToUpper(ToUpper(s)) == ToUpper(s)
  {
  }

  /** Upper-casing neither creates nor removes white space or a given ASCII separator. */
  lemma ToUpperKeepsClass(s: string, sep: char)
    requires !('a' <= sep <= 'z') && !('A' <= sep <= 'Z')
    ensures sep in ToUpper(s) <==> sep in s
    ensures forall i | 0 <= i < |s| :: IsWhiteSpace(ToUpper(s)[i]) <==> IsWhiteSpace(s[i])
  {
    if sep in ToUpper(s) {
      var i :| 0 <= i < |s| && ToUpper(s)[i] == sep;
      assert s[i] == sep;
    }
    if sep in s {
      var i :| 0 <= i < |s| && s[i] == sep;
      assert ToUpper(s)[i] == sep;
    }
  }

  /** A string without the separator is its own only piece. */
  lemma {:induction false} SplitWithoutSeparator(s: string, sep: char)
    requires sep !in s
    ensures Split(s, sep) == [s]
  {
    if |s| > 0 {
      SplitWithoutSeparator(s[1..], sep);
      assert [s[0]] + s[1..] == s;
    }
  }

  lemma {:induction false} SplitAfterPiece(a: string, sep: char, b: string)
    requires sep !in a
    ensures Split(a + [sep] + b, sep) == [a] + Split(b, sep)
  {
    var s := a + [sep] + b;
    if |a| == 0 {
      assert s[1..] == b;
    } else {
      assert s[1..] == a[1..] + [sep] + b;
      SplitAfterPiece(a[1..], sep, b);
      assert [a[0]] + a[1..] == a;
    }
  }

  /** Splitting a joined list gives the list back when no piece holds the separator. */
  lemma {:induction false} SplitJoin(parts: seq<string>, sep: char)
    requires |parts| >= 1
    requires forall k | 0 <= k < |parts| :: sep !in parts[k]
    ensures Split(Join([sep], parts), sep) == parts
  {
    if |parts| == 1 {
      SplitWithoutSeparator(parts[0], sep);
    } else {
      SplitJoin(parts[1..], sep);
      SplitAfterPiece(parts[0], sep, Join([sep], parts[1..]));
    }
  }

  /** Joining the pieces of a split with the same separator rebuilds the string. */
  lemma {:induction false} JoinSplit(s: string, sep: char)
    ensures Join([sep], Split(s, sep)) == s
  {
    if |s| > 0 {
      var rest := Split(s[1..], sep);
      JoinSplit(s[1..], sep);
      if s[0] != sep {
        var parts := [[s[0]] + rest[0]] + rest[1..];
        if |rest| == 1 {
          assert Join([sep], parts) == [s[0]] + rest[0];
        } else {
          assert parts[1..] == rest[1..];
          assert Join([sep], rest) == rest[0] + [sep] + Join([sep], rest[1..]);
        }
      }
    }
  }

  /** Dropping empty pieces changes nothing when there are none. */
  lemma {:induction false} RemoveEmptyNoOp(parts: seq<string>)
    requires forall k | 0 <= k < |parts| :: parts[k] != []
    ensures RemoveEmpty(parts) == parts
  {
    if |parts| > 0 {
      RemoveEmptyNoOp(parts[1..]);
    }
  }
}
