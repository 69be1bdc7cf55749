/**
  The line parser: a request line is trimmed, split on single spaces with the
  empty pieces dropped, and its first token (the verb) is upper-cased.  A
  null, empty or white-space-only line gives no tokens at all (null).
*/
module Parser {
  import opened Wrappers
  import opened Text

  /** A token list as a joined request line would give it back: at least one token, no
      token empty or holding a space, and no white space at the two ends of the line. */
  predicate Tokens(ts: seq<string>)
  {
    && |ts| >= 1
    && (forall k | 0 <= k < |ts| :: ts[k] != [] && ' ' !in ts[k])
    && !IsWhiteSpace(ts[0][0])
    && !IsWhiteSpace(ts[|ts| - 1][|ts[|ts| - 1]| - 1])
  }

  /** What the parser produces: well-formed tokens whose verb is already upper case. */
  predicate Normalized(ts: seq<string>)
  {
    Tokens(ts) && ToUpper(ts[0]) == ts[0]
  }

  /** CommandParser.Parse; the null line is folded into the blank one. */
  function Parse(input: string): (r: Option<seq<string>>)
    ensures r.None? <==> IsBlank(input)
    ensures r.Some? ==> Normalized(r.value)
  {
    if IsBlank(input) then None
    else
      var parts := RemoveEmpty(Split(Trim(input), ' '));
      ParsedShape(input);
      Some([ToUpper(parts[0])] + parts[1..])
  }

  /** The pieces of a non-blank line already form a well-formed token list. */
  lemma ParsedShape(input: string)
    requires !IsBlank(input)
    ensures Tokens(RemoveEmpty(Split(Trim(input), ' ')))
    ensures var ts := RemoveEmpty(Split(Trim(input), ' '));
      Tokens([ToUpper(ts[0])] + ts[1..]) && ToUpper(ToUpper(ts[0])) == ToUpper(ts[0])
  {
    TrimBlank(input);
    TrimEnds(input);
    TrimmedTokens(Trim(input));
    UpperVerb(RemoveEmpty(Split(Trim(input), ' ')));
  }

  /** The pieces of a line with no white space at its ends, empty ones dropped. */
  lemma TrimmedTokens(t: string)
    requires t != [] && !IsWhiteSpace(t[0]) && !IsWhiteSpace(t[|t| - 1])
    ensures Tokens(RemoveEmpty(Split(t, ' ')))
  {
    assert IsWhiteSpace(' ');
    FirstToken(t, ' ');
    LastToken(t, ' ');
    RemoveEmptyWithout(Split(t, ' '), ' ');
  }

  /** The first token of a line that does not start with the separator begins with the
      line's first character. */
  lemma FirstToken(t: string, sep: char)
    requires |t| > 0 && t[0] != sep
    ensures var ts := RemoveEmpty(Split(t, sep)); |ts| > 0 && ts[0] != [] && ts[0][0] == t[0]
  {
    SplitFirst(t, sep);
    RemoveEmptyFirst(Split(t, sep));
  }

  /** The last token of a line that does not end with the separator ends with the line's
      last character. */
  lemma LastToken(t: string, sep: char)
    requires |t| > 0 && t[|t| - 1] != sep
    ensures var ts := RemoveEmpty(Split(t, sep));
      |ts| > 0 && ts[|ts| - 1] != [] && ts[|ts| - 1][|ts[|ts| - 1]| - 1] == t[|t| - 1]
  {
    var parts := Split(t, sep);
    SplitLast(t, sep);
    RemoveEmptyLast(parts);
    var ts := RemoveEmpty(parts);
    assert ts[|ts| - 1] == parts[|parts| - 1];
  }

  /** Upper-casing the verb keeps a token list well formed, and a second upper-casing
      changes nothing. */
  lemma UpperVerb(ts: seq<string>)
    requires Tokens(ts)
    ensures Tokens([ToUpper(ts[0])] + ts[1..]) && ToUpper(ToUpper(ts[0])) == ToUpper(ts[0])
  {
    var us := [ToUpper(ts[0])] + ts[1..];
    ToUpperKeepsClass(ts[0], ' ');
    ToUpperIdempotent(ts[0]);
    assert forall k | 1 <= k < |us| :: us[k] == ts[k];
  }

  /** A line that does not start with the separator has a first piece beginning with its
      first character. */
  lemma SplitFirst(t: string, sep: char)
    requires |t| > 0 && t[0] != sep
    ensures Split(t, sep)[0] != [] && Split(t, sep)[0][0] == t[0]
  {
  }

  /** A line that does not end with the separator has a last piece ending with its last
      character. */
  lemma {:induction false} SplitLast(t: string, sep: char)
    requires |t| > 0 && t[|t| - 1] != sep
    ensures var ps := Split(t, sep);
      ps[|ps| - 1] != [] && ps[|ps| - 1][|ps[|ps| - 1]| - 1] == t[|t| - 1]
  {
    var rest := Split(t[1..], sep);
    var ps := Split(t, sep);
    if |t| > 1 {
      SplitLast(t[1..], sep);
      assert t[1..][|t| - 2] == t[|t| - 1];
      if t[0] == sep || |rest| > 1 {
        assert ps[|ps| - 1] == rest[|rest| - 1];
      } else {
        assert ps == [[t[0]] + rest[0]];
      }
    } else {
      assert t[1..] == [];
      assert rest == [""];
      assert ps == [[t[0]] + rest[0]];
    }
  }

  lemma RemoveEmptyFirst(parts: seq<string>)
    requires |parts| > 0 && parts[0] != []
    ensures |RemoveEmpty(parts)| > 0 && RemoveEmpty(parts)[0] == parts[0]
  {
  }

  lemma {:induction false} RemoveEmptyLast(parts: seq<string>)
    requires |parts| > 0 && parts[|parts| - 1] != []
    ensures |RemoveEmpty(parts)| > 0
    ensures RemoveEmpty(parts)[|RemoveEmpty(parts)| - 1] == parts[|parts| - 1]
  {
    if |parts| > 1 {
      RemoveEmptyLast(parts[1..]);
    }
  }

  /** Parsing a space-joined token list upper-cases the verb and leaves every other token
      exactly as it was. */
  lemma ParseJoin(ts: seq<string>)
    requires Tokens(ts)
    ensures Parse(Join(" ", ts)) == Some([ToUpper(ts[0])] + ts[1..])
  {
    var line := Join(" ", ts);
    JoinEnds(ts);
    assert !IsBlank(line);
    TrimNoOp(line);
    SplitJoin(ts, ' ');
    assert [' '] == " ";
    RemoveEmptyNoOp(ts);
  }

  /** The joined line starts with the first token's first character and ends with the last
      token's last character. */
  lemma {:induction false} JoinEnds(ts: seq<string>)
    requires |ts| >= 1 && forall k | 0 <= k < |ts| :: ts[k] != []
    ensures var line := Join(" ", ts);
      |line| > 0 && line[0] == ts[0][0] && line[|line| - 1] == ts[|ts| - 1][|ts[|ts| - 1]| - 1]
  {
    if |ts| > 1 {
      var rest := Join(" ", ts[1..]);
      JoinEnds(ts[1..]);
      assert ts[1..][|ts| - 2] == ts[|ts| - 1];
      var line := ts[0] + " " + rest;
      assert Join(" ", ts) == line;
      assert line[0] == ts[0][0];
      assert line[|line| - 1] == rest[|rest| - 1];
    }
  }

  /** Normalisation is idempotent: parsing the joined result of a parse gives it back. */
  lemma ParseIdempotent(input: string)
    requires !IsBlank(input)
    ensures Parse(Join(" ", Parse(input).value)) == Parse(input)
  {
    ParseJoin(Parse(input).value);
  }
}
