/** The two string helpers of the client's `Utils` class: `getInitials`, which
    builds an avatar text from a user's name, and `validateEmail`, which tests an
    address against the pattern `^[^\s@]+@[^\s@]+\.[^\s@]+$` after lower-casing it. */
module Utils {
  import opened Common
  import opened Text

  // ---------------------------------------------------------------------------
  // getInitials

  /** `part.charAt(0)`: the first character, or "" for an empty piece. */
  function FirstChar(part: string): (c: string)
    ensures |c| <= 1
  {
    if |part| == 0 then "" else [part[0]]
  }

  /** `parts.map(part => part.charAt(0)).join("")`. */
  function FirstChars(parts: seq<string>): string
  {
    if |parts| == 0 then "" else FirstChar(parts[0]) + FirstChars(parts[1..])
  }

  /** `s.substring(0, n)`. */
  function Prefix(s: string, n: nat): (r: string)
    ensures |r| <= n && r <= s
  {
    if |s| <= n then s else s[..n]
  }

  /** `Utils.getInitials(name)`: a falsy name gives ""; otherwise the first
      character of every space-separated piece, upper-cased, cut to two. */
  function GetInitials(name: Option<string>): (r: string)
    ensures |r| <= 2
    ensures !Truthy(name) ==> r == ""
    ensures forall i :: 0 <= i < |r| ==> !IsLowerAscii(r[i])
  {
    if !Truthy(name) then ""
    else Prefix(ToUpper(FirstChars(Split(name.value, ' '))), 2)
  }

  /** Independent reading of the same letters: the characters that start a word,
      that is, a non-space character at the start of the text or right after a
      space. `atStart` says whether the previous character was a space. */
  function WordStarts(s: string, atStart: bool): string
  {
    if |s| == 0 then ""
    else (if atStart && s[0] != ' ' then [s[0]] else "") + WordStarts(s[1..], s[0] == ' ')
  }

  lemma {:induction false} FirstCharsConcat(a: seq<string>, b: seq<string>)
    ensures FirstChars(a + b) == FirstChars(a) + FirstChars(b)
  {
    if |a| > 0 {
      FirstCharsConcat(a[1..], b);
      assert (a + b)[1..] == a[1..] + b;
    } else {
      assert a + b == b;
    }
  }

  /** The pieces of `split(" ")` contribute exactly the word-start characters;
      the pieces after the first contribute those of the text that follows it. */
  lemma {:induction false} FirstCharsOfSplit(s: string)
    ensures FirstChars(Split(s, ' ')) == WordStarts(s, true)
    ensures FirstChars(Split(s, ' ')[1..]) == WordStarts(s, false)
  {
    if |s| > 0 {
      FirstCharsOfSplit(s[1..]);
      var rest := Split(s[1..], ' ');
      var parts := Split(s, ' ');
      if s[0] == ' ' {
        assert parts == [""] + rest;
        FirstCharsConcat([""], rest);
        assert parts[1..] == rest;
      } else {
        assert parts == [[s[0]] + rest[0]] + rest[1..];
        FirstCharsConcat([[s[0]] + rest[0]], rest[1..]);
        assert parts[1..] == rest[1..];
      }
    }
  }

  /** The initials are the first two word-start characters of the name, upper-cased. */
  lemma InitialsAreWordStarts(name: string)
    requires name != ""
    ensures GetInitials(Some(name)) == Prefix(ToUpper(WordStarts(name, true)), 2)
  {
    FirstCharsOfSplit(name);
  }

  lemma {:induction false} WordStartsNoSpace(s: string, atStart: bool)
    requires ' ' !in s && |s| > 0
    ensures WordStarts(s, atStart) == (if atStart then [s[0]] else "")
  {
    if |s| > 1 {
      WordStartsNoSpace(s[1..], false);
    }
  }

  /** A one-word name yields exactly its first character, upper-cased. */
  lemma InitialsOfOneWord(name: string)
    requires name != "" && ' ' !in name
    ensures GetInitials(Some(name)) == [UpperChar(name[0])]
  {
    InitialsAreWordStarts(name);
    WordStartsNoSpace(name, true);
  }

  lemma {:induction false} WordStartsConcat(a: string, b: string, atStart: bool)
    ensures WordStarts(a + b, atStart)
         == WordStarts(a, atStart) + WordStarts(b, if |a| == 0 then atStart else a[|a| - 1] == ' ')
  {
    if |a| > 0 {
      WordStartsConcat(a[1..], b, a[0] == ' ');
      assert (a + b)[1..] == a[1..] + b;
    } else {
      assert a + b == b;
    }
  }

  /** Doubling a space anywhere leaves the word-start characters unchanged. */
  lemma WordStartsIgnoreRepeatedSpaces(a: string, b: string)
    ensures WordStarts(a + "  " + b, true) == WordStarts(a + " " + b, true)
  {
    WordStartsConcat(a, " " + b, true);
    WordStartsConcat(a, "  " + b, true);
    var st := if |a| == 0 then true else a[|a| - 1] == ' ';
    assert ("  " + b)[1..] == " " + b;
    assert (" " + b)[1..] == b;
    assert WordStarts("  " + b, st) == WordStarts(" " + b, true) == WordStarts(b, true);
    assert WordStarts(" " + b, st) == WordStarts(b, true);
    assert a + " " + b == a + (" " + b);
    assert a + "  " + b == a + ("  " + b);
  }

  /** Pieces left empty by repeated spaces contribute nothing: doubling a space
      anywhere in the name leaves its initials unchanged. */
  lemma InitialsIgnoreRepeatedSpaces(a: string, b: string)
    ensures GetInitials(Some(a + "  " + b)) == GetInitials(Some(a + " " + b))
  {
    var one := a + " " + b;
    var two := a + "  " + b;
    InitialsAreWordStarts(one);
    InitialsAreWordStarts(two);
    WordStartsIgnoreRepeatedSpaces(a, b);
  }


  // ---------------------------------------------------------------------------
  // validateEmail

  /** A character of `[^\s@]`. */
  predicate EmailPartChar(c: char)
  {
    !IsJsWhitespace(c) && c != '@'
  }

  /** `s[lo..hi]` is a match of `[^\s@]+`. */
  predicate PartRange(s: string, lo: int, hi: int)
  {
    0 <= lo < hi <= |s| && forall i :: lo <= i < hi ==> EmailPartChar(s[i])
  }

  /** `s` matches `^[^\s@]+@[^\s@]+\.[^\s@]+$` with its "@" at `at` and the
      literal "." at `dot`. */
  predicate MatchesAt(s: string, at: int, dot: int)
  {
    0 <= at < dot < |s| && s[at] == '@' && s[dot] == '.'
    && PartRange(s, 0, at) && PartRange(s, at + 1, dot) && PartRange(s, dot + 1, |s|)
  }

  /** The regular expression of `validateEmail`, read as a statement about strings. */
  ghost predicate MatchesEmailPattern(s: string)
  {
    exists at, dot :: MatchesAt(s, at, dot)
  }

  /** The position of the first `c` in `s`. */
  function IndexOf(s: string, c: char): (k: Option<nat>)
    ensures k.None? <==> c !in s
    ensures k.Some? ==> k.value < |s| && s[k.value] == c && forall i :: 0 <= i < k.value ==> s[i] != c
  {
    if |s| == 0 then None
    else if s[0] == c then Some(0)
    else match IndexOf(s[1..], c)
      case None => None
      case Some(k) => Some(k + 1)
  }

  /** No character of `t` is white space. */
  predicate NoWhitespace(t: string)
  {
    |t| == 0 || (!IsJsWhitespace(t[0]) && NoWhitespace(t[1..]))
  }

  /** Every character of `t` is in `[^\s@]`. */
  predicate AllPartChars(t: string)
  {
    |t| == 0 || (EmailPartChar(t[0]) && AllPartChars(t[1..]))
  }

  lemma {:induction false} NoWhitespaceMeans(t: string)
    ensures NoWhitespace(t) <==> forall i :: 0 <= i < |t| ==> !IsJsWhitespace(t[i])
  {
    if |t| > 0 {
      NoWhitespaceMeans(t[1..]);
      assert forall i :: 1 <= i < |t| ==> t[i] == t[1..][i - 1];
    }
  }

  lemma {:induction false} AllPartCharsMeans(t: string)
    ensures AllPartChars(t) <==> forall i :: 0 <= i < |t| ==> EmailPartChar(t[i])
  {
    if |t| > 0 {
      AllPartCharsMeans(t[1..]);
      assert forall i :: 1 <= i < |t| ==> t[i] == t[1..][i - 1];
    }
  }

  /** The scan over the lower-cased text: take the first "@"; it must not be
      the first character, nothing before it may be white space, nothing after
      it may be white space or another "@", and some "." after it must be
      neither right after the "@" nor last. */
  function ScanAccepts(s: string): bool
  {
    match IndexOf(s, '@')
    case None => false
    case Some(at) =>
      && at > 0
      && NoWhitespace(s[..at])
      && AllPartChars(s[at + 1..])
      && at + 2 <= |s| - 1 && '.' in s[at + 2 .. |s| - 1]
  }

  /** `Utils.validateEmail(email)`: lower-case, then test the pattern. */
  function ValidateEmail(email: string): bool
  {
    ScanAccepts(ToLower(email))
  }

  lemma ScanAcceptsMatches(s: string)
    requires ScanAccepts(s)
    ensures MatchesEmailPattern(s)
  {
    var at := IndexOf(s, '@').value;
    NoWhitespaceMeans(s[..at]);
    AllPartCharsMeans(s[at + 1..]);
    var k :| 0 <= k < |s[at + 2 .. |s| - 1]| && s[at + 2 .. |s| - 1][k] == '.';
    var dot := at + 2 + k;
    assert forall i :: at < i < |s| ==> s[i] == s[at + 1..][i - at - 1];
    assert MatchesAt(s, at, dot);
  }

  lemma MatchesScanAccepts(s: string, at: int, dot: int)
    requires MatchesAt(s, at, dot)
    ensures ScanAccepts(s)
  {
    assert IndexOf(s, '@') == Some(at);
    NoWhitespaceMeans(s[..at]);
    AllPartCharsMeans(s[at + 1..]);
    assert s[at + 2 .. |s| - 1][dot - at - 2] == '.';
  }

  /** The hand-written check accepts exactly what the regular expression accepts. */
  lemma ValidateEmailIsPattern(email: string)
    ensures ValidateEmail(email) <==> MatchesEmailPattern(ToLower(email))
  {
    var s := ToLower(email);
    if ScanAccepts(s) {
      ScanAcceptsMatches(s);
    }
    if MatchesEmailPattern(s) {
      var at, dot :| MatchesAt(s, at, dot);
      MatchesScanAccepts(s, at, dot);
    }
  }

  lemma LowerKeepsPartChars(c: char)
    ensures EmailPartChar(LowerChar(c)) == EmailPartChar(c)
    ensures (LowerChar(c) == '@') == (c == '@')
    ensures (LowerChar(c) == '.') == (c == '.')
  {
  }

  lemma LowerKeepsMatch(s: string, at: int, dot: int)
    ensures MatchesAt(ToLower(s), at, dot) <==> MatchesAt(s, at, dot)
  {
    var t := ToLower(s);
    forall i | 0 <= i < |s|
      ensures EmailPartChar(t[i]) == EmailPartChar(s[i])
      ensures (t[i] == '@') == (s[i] == '@') && (t[i] == '.') == (s[i] == '.')
    {
      LowerKeepsPartChars(s[i]);
    }
  }

  /** `validateEmail` is case-insensitive in the strongest sense: lower-casing
      first changes nothing, so the result is that of the pattern on the raw text. */
  lemma ValidateEmailIgnoresCase(email: string)
    ensures ValidateEmail(email) <==> MatchesEmailPattern(email)
  {
    ValidateEmailIsPattern(email);
    if MatchesEmailPattern(email) {
      var at, dot :| MatchesAt(email, at, dot);
      LowerKeepsMatch(email, at, dot);
    }
    if MatchesEmailPattern(ToLower(email)) {
      var at, dot :| MatchesAt(ToLower(email), at, dot);
      LowerKeepsMatch(email, at, dot);
    }
  }

  /** What an accepted address looks like: exactly one "@", not first, no white
      space, and after the "@" a "." that is neither the domain's first nor its
      last character. */
  lemma AcceptedEmailShape(email: string)
    requires ValidateEmail(email)
    ensures forall i :: 0 <= i < |email| ==> !IsJsWhitespace(email[i])
    ensures exists at :: 0 < at < |email| && email[at] == '@'
                         && (forall i :: 0 <= i < |email| && i != at ==> email[i] != '@')
                         && exists dot :: at + 1 < dot < |email| - 1 && email[dot] == '.'
  {
    ValidateEmailIgnoresCase(email);
    var at, dot :| MatchesAt(email, at, dot);
    assert forall i :: 0 <= i < |email| ==> i == at || i == dot || EmailPartChar(email[i]);
  }
}
