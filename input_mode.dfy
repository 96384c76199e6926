/**
 * The command-line choice of the detector's input mode: the typed text is
 * normalised (letters and digits lower-cased, '_' and '-' both read as '_',
 * everything else dropped, at most 31 characters kept) and looked up in a
 * table of accepted spellings.  The argument is the character array the
 * pointer designates; reading stops at its first NUL, or at its end when it
 * holds none.
 */
module InputModeCli {
  import opened Common

  datatype InputMode = Rgb888 | Yuv422 | YOnly | YTernary | YBinary

  /** `std::isalnum` in the C locale. */
  predicate IsAlnum(c: char) {
    'a' <= c <= 'z' || 'A' <= c <= 'Z' || '0' <= c <= '9'
  }

  /** `std::tolower` in the C locale. */
  function ToLower(c: char): char {
    if 'A' <= c <= 'Z' then (c as int - 'A' as int + 'a' as int) as char else c
  }

  /** What one input character contributes to the normalised text: nothing or one character. */
  function NormChar(c: char): (r: string)
    ensures |r| <= 1
  {
    if IsAlnum(c) then [ToLower(c)]
    else if c == '_' || c == '-' then ['_']
    else []
  }

  /** The whole input, normalised character by character. */
  function Normalize(s: string): string
    decreases |s|
  {
    if s == [] then [] else Normalize(s[..|s| - 1]) + NormChar(s[|s| - 1])
  }

  /** `sizeof(buf) - 1`: how many normalised characters are kept. */
  const KeyCapacity: nat := 31

  /** The normalised text the lookup compares: its first `KeyCapacity` characters. */
  function Key(s: string): (k: string)
    ensures |k| <= KeyCapacity
  {
    var n := Normalize(s);
    if |n| <= KeyCapacity then n else n[..KeyCapacity]
  }

  /** The spellings accepted for each mode. */
  function Spellings(m: InputMode): set<string> {
    match m
    case Rgb888 => {"rgb", "rgb888"}
    case Yuv422 => {"yuv", "yuv422"}
    case YOnly => {"y", "yonly", "y_only"}
    case YTernary => {"yternary", "y_ternary"}
    case YBinary => {"ybinary", "y_binary"}
  }

  /** The `strcmp` chain over the normalised buffer. */
  function ModeOfKey(k: string): InputMode {
    if k == "rgb" || k == "rgb888" then Rgb888
    else if k == "yuv" || k == "yuv422" then Yuv422
    else if k == "y" || k == "yonly" || k == "y_only" then YOnly
    else if k == "yternary" || k == "y_ternary" then YTernary
    else if k == "ybinary" || k == "y_binary" then YBinary
    else Rgb888
  }

  /**
   * The chain picks the mode whose spelling the key is, and RGB888 when the
   * key is no accepted spelling; no spelling belongs to two modes.
   */
  lemma ModeOfKeyMatchesSpellings(k: string)
    ensures k in Spellings(ModeOfKey(k)) || (ModeOfKey(k) == Rgb888 && forall m :: k !in Spellings(m))
    ensures forall m :: k in Spellings(m) ==> m == ModeOfKey(k)
  {
  }

  /** Where the C string held in `s` ends: its first NUL, or the end of `s`. */
  function NulIndex(s: string): (n: nat)
    ensures n <= |s| && (n < |s| ==> s[n] == '\0')
    ensures forall i :: 0 <= i < n ==> s[i] != '\0'
    decreases |s|
  {
    if s == [] || s[0] == '\0' then 0 else 1 + NulIndex(s[1..])
  }

  /** The characters of the C string held in `s`. */
  function CString(s: string): string {
    s[..NulIndex(s)]
  }

  /** The two facts of `NulIndex`'s contract determine it. */
  lemma NulIndexUnique(s: string, n: nat)
    requires n <= |s| && (n < |s| ==> s[n] == '\0')
    requires forall i :: 0 <= i < n ==> s[i] != '\0'
    ensures n == NulIndex(s)
  {
  }

  /** The C string stops short of the end exactly when the text holds a NUL. */
  lemma NulIndexFindsNul(s: string)
    ensures NulIndex(s) < |s| <==> '\0' in s
  {
    assert NulIndex(s) < |s| ==> s[NulIndex(s)] in s;
  }

  /** Text without NUL is its own C string. */
  lemma CStringOfPlain(s: string)
    requires '\0' !in s
    ensures CString(s) == s
  {
    NulIndexFindsNul(s);
  }

  /** The C string of a concatenation: the first part's, if that holds a NUL, else all of it and the second part's. */
  lemma CStringAppend(a: string, b: string)
    ensures CString(a + b) == if '\0' in a then CString(a) else a + CString(b)
  {
    if '\0' in a {
      var n := NulIndex(a);
      NulIndexFindsNul(a);
      NulIndexUnique(a + b, n);
      assert (a + b)[..n] == a[..n];
    } else {
      var n := NulIndex(b);
      forall i | 0 <= i < |a| + n
        ensures (a + b)[i] != '\0'
      {
        if i < |a| {
          assert a[i] in a;
        }
      }
      NulIndexUnique(a + b, |a| + n);
      assert (a + b)[..|a| + n] == a + b[..n];
    }
  }

  /** `parse_input_mode` as a function of its argument; a null argument reads as RGB888. */
  function ParsedMode(value: Option<string>): InputMode {
    if value.None? then Rgb888 else ModeOfKey(Key(CString(value.value)))
  }

  /**
   * `parse_input_mode`: copy normalised characters into the 31-character
   * buffer until the NUL (or the end of the array) or until the buffer is
   * full, then look it up.
   */
  method ParseInputMode(value: Option<string>) returns (mode: InputMode)
    ensures mode == ParsedMode(value)
  {
    if value.None? {
      return Rgb888;
    }
    var s := value.value;
    var buf: string := [];
    var i := 0;
    while i < |s| && s[i] != '\0' && |buf| < KeyCapacity
      invariant i <= NulIndex(s) && |buf| <= KeyCapacity
      invariant buf == Normalize(s[..i])
    {
      var c := s[i];
      if IsAlnum(c) {
        buf := buf + [ToLower(c)];
      } else if c == '_' || c == '-' {
        buf := buf + ['_'];
      }
      assert s[..i + 1][..i] == s[..i];
      i := i + 1;
    }
    var text := CString(s);
    assert text[..i] == s[..i];
    KeyOfStoppedPrefix(text, i);
    mode := ModeOfKey(buf);
  }

  /** Normalising a concatenation normalises each part. */
  lemma {:induction false} NormalizeAppend(a: string, b: string)
    ensures Normalize(a + b) == Normalize(a) + Normalize(b)
    decreases |b|
  {
    if b == [] {
      assert a + b == a;
    } else {
      var b', c := b[..|b| - 1], b[|b| - 1];
      assert b == b' + [c];
      NormalizeAppend(a, b');
      NormalizeAppendStep(a, b', c);
    }
  }

  /** One more character on the right keeps `NormalizeAppend`'s equation. */
  lemma NormalizeAppendStep(a: string, b: string, c: char)
    requires Normalize(a + b) == Normalize(a) + Normalize(b)
    ensures Normalize(a + (b + [c])) == Normalize(a) + Normalize(b + [c])
  {
    var ab, bc := a + b, b + [c];
    SnocAssoc(a, b, c);
    NormalizeSnoc(ab, c);
    NormalizeSnoc(b, c);
    ConcatAssoc(Normalize(a), Normalize(b), NormChar(c));
  }

  lemma ConcatAssoc(x: string, y: string, z: string)
    ensures (x + y) + z == x + (y + z)
  {
  }

  lemma SnocAssoc(a: string, b: string, c: char)
    ensures a + (b + [c]) == (a + b) + [c]
  {
  }

  /** Where the parse loop stops, its buffer is the key of the whole input. */
  lemma KeyOfStoppedPrefix(s: string, i: nat)
    requires i <= |s|
    requires i == |s| || |Normalize(s[..i])| >= KeyCapacity
    requires |Normalize(s[..i])| <= KeyCapacity
    ensures Key(s) == Normalize(s[..i])
  {
    assert s == s[..i] + s[i..];
    NormalizeAppend(s[..i], s[i..]);
  }

  /** Once 31 normalised characters have been read, later input changes nothing. */
  lemma LaterInputIgnored(s: string, t: string)
    requires |Normalize(s)| >= KeyCapacity
    ensures ParsedMode(Some(s + t)) == ParsedMode(Some(s))
  {
    CStringAppend(s, t);
    if '\0' !in s {
      CStringOfPlain(s);
      LaterInputKeepsKey(s, CString(t));
    }
  }

  lemma LaterInputKeepsKey(s: string, t: string)
    requires |Normalize(s)| >= KeyCapacity
    ensures Key(s + t) == Key(s)
  {
    NormalizeAppend(s, t);
    assert (Normalize(s) + Normalize(t))[..KeyCapacity] == Normalize(s)[..KeyCapacity];
  }

  /** A character other than NUL that normalises to nothing can be inserted anywhere without effect. */
  lemma DroppedCharacterIgnored(a: string, c: char, b: string)
    requires NormChar(c) == [] && c != '\0'
    ensures ParsedMode(Some(a + [c] + b)) == ParsedMode(Some(a + b))
  {
    CStringAppend(a + [c], b);
    CStringAppend(a, b);
    CStringAppend(a, [c]);
    assert '\0' in a + [c] <==> '\0' in a;
    if '\0' !in a {
      DroppedCharacterKeepsNormal(a, c, CString(b));
    }
  }

  /** A NUL ends the input: whatever follows it is never read. */
  lemma NulEndsInput(a: string, b: string)
    ensures ParsedMode(Some(a + ['\0'] + b)) == ParsedMode(Some(a))
  {
    CStringAppend(a + ['\0'], b);
    CStringAppend(a, ['\0']);
    assert '\0' in a + ['\0'];
    assert CString(['\0']) == [];
    if '\0' !in a {
      CStringOfPlain(a);
    }
  }

  /** "y" followed by a NUL and "uv" reads as "y", not as "yuv". */
  lemma NulHidesRest()
    ensures ParsedMode(Some("y\0uv")) == YOnly && ParsedMode(Some("yuv")) == Yuv422
  {
    NulEndsInput("y", "uv");
    NulSplit();
    ParsesY();
    ParsesYuv();
  }

  lemma NulSplit()
    ensures "y" + ['\0'] + "uv" == "y\0uv"
  {
  }

  lemma ParsesY()
    ensures ParsedMode(Some("y")) == YOnly
  {
    NormalSpellingParses("y", YOnly);
  }

  lemma ParsesYuv()
    ensures ParsedMode(Some("yuv")) == Yuv422
  {
    NormalSpellingParses("yuv", Yuv422);
  }

  lemma DroppedCharacterKeepsNormal(a: string, c: char, b: string)
    requires NormChar(c) == []
    ensures Normalize(a + [c] + b) == Normalize(a + b)
  {
    NormalizeAppend(a + [c], b);
    NormalizeSnoc(a, c);
    NormalizeAppend(a, b);
  }

  /** Normalising one more character appends what that character contributes. */
  lemma NormalizeSnoc(s: string, c: char)
    ensures Normalize(s + [c]) == Normalize(s) + NormChar(c)
  {
    assert (s + [c])[..|s|] == s;
  }

  /** Inputs that agree character by character after normalisation normalise alike. */
  lemma {:induction false} NormalizeRespectsEquivalence(s: string, t: string)
    requires |s| == |t| && forall i :: 0 <= i < |s| ==> NormChar(s[i]) == NormChar(t[i])
    ensures Normalize(s) == Normalize(t)
    decreases |s|
  {
    if s != [] {
      NormalizeRespectsEquivalence(s[..|s| - 1], t[..|t| - 1]);
    }
  }

  /**
   * Case and separator insensitivity: changing the case of letters, or
   * swapping '-' and '_', does not change the parsed mode.
   */
  lemma CaseAndSeparatorInsensitive(s: string, t: string)
    requires |s| == |t|
    requires forall i :: 0 <= i < |s| ==>
               || s[i] == t[i]
               || (IsAlnum(s[i]) && IsAlnum(t[i]) && ToLower(s[i]) == ToLower(t[i]))
               || ((s[i] == '-' || s[i] == '_') && (t[i] == '-' || t[i] == '_'))
    ensures ParsedMode(Some(s)) == ParsedMode(Some(t))
  {
    var n := NulIndex(s);
    NulIndexUnique(t, n);
    NormalizeRespectsEquivalence(CString(s), CString(t));
  }

  /** Text made only of lower-case letters, digits and '_' is already normalised. */
  lemma {:induction false} NormalizeFixesNormalText(s: string)
    requires forall i :: 0 <= i < |s| ==> IsNormalChar(s[i])
    ensures Normalize(s) == s
    decreases |s|
  {
    if s != [] {
      var front, last := s[..|s| - 1], s[|s| - 1];
      NormalizeFixesNormalText(front);
      NormCharOfNormal(last);
      assert front + [last] == s;
    }
  }

  /** A character that normalisation leaves as it is. */
  predicate IsNormalChar(c: char) {
    'a' <= c <= 'z' || '0' <= c <= '9' || c == '_'
  }

  lemma NormCharOfNormal(c: char)
    requires IsNormalChar(c)
    ensures NormChar(c) == [c]
  {
  }

  /** An accepted spelling, typed as it is, selects its mode. */
  lemma NormalSpellingParses(s: string, m: InputMode)
    requires forall i :: 0 <= i < |s| ==> IsNormalChar(s[i])
    requires |s| <= KeyCapacity && ModeOfKey(s) == m
    ensures ParsedMode(Some(s)) == m
  {
    CStringOfPlain(s);
    NormalizeFixesNormalText(s);
  }

  /** `input_mode_to_string`; parsing its text gives the mode back. */
  function InputModeToString(m: InputMode): (s: string)
    ensures ParsedMode(Some(s)) == m
  {
    match m
    case Rgb888 => NormalSpellingParses("rgb888", m); "rgb888"
    case Yuv422 => NormalSpellingParses("yuv422", m); "yuv422"
    case YOnly => NormalSpellingParses("y_only", m); "y_only"
    case YTernary => NormalSpellingParses("y_ternary", m); "y_ternary"
    case YBinary => NormalSpellingParses("y_binary", m); "y_binary"
  }

  /** "Y-Only", "Y_ONLY" and "y only" all select the Y-only mode. */
  lemma SpellingsOfYOnly()
    ensures ParsedMode(Some("Y-Only")) == YOnly
    ensures ParsedMode(Some("Y_ONLY")) == YOnly
    ensures ParsedMode(Some("y only")) == YOnly
  {
    YOnlyCased("Y-Only");
    YOnlyCased("Y_ONLY");
    YOnlySpaced();
  }

  /** A six-character spelling of "y_only" up to case and separator selects the Y-only mode. */
  lemma YOnlyCased(s: string)
    requires |s| == 6 && (s[0] == 'y' || s[0] == 'Y') && (s[1] == '-' || s[1] == '_')
    requires (s[2] == 'o' || s[2] == 'O') && (s[3] == 'n' || s[3] == 'N')
    requires (s[4] == 'l' || s[4] == 'L') && (s[5] == 'y' || s[5] == 'Y')
    ensures ParsedMode(Some(s)) == YOnly
  {
    var t := InputModeToString(YOnly);
    UnderscoreSpelling();
    CasedLikeYOnly(s, t);
  }

  lemma UnderscoreSpelling()
    ensures var t := "y_only";
      |t| == 6 && t[0] == 'y' && t[1] == '_' && t[2] == 'o' && t[3] == 'n' && t[4] == 'l' && t[5] == 'y'
  {
  }

  /** `s` spells `t` = "y_only" up to case and separator, so both parse alike. */
  lemma CasedLikeYOnly(s: string, t: string)
    requires |s| == 6 && (s[0] == 'y' || s[0] == 'Y') && (s[1] == '-' || s[1] == '_')
    requires (s[2] == 'o' || s[2] == 'O') && (s[3] == 'n' || s[3] == 'N')
    requires (s[4] == 'l' || s[4] == 'L') && (s[5] == 'y' || s[5] == 'Y')
    requires |t| == 6 && t[0] == 'y' && t[1] == '_' && t[2] == 'o' && t[3] == 'n' && t[4] == 'l' && t[5] == 'y'
    ensures ParsedMode(Some(s)) == ParsedMode(Some(t))
  {
    CaseAndSeparatorInsensitive(s, t);
  }

  /** "y only": the blank is dropped, leaving the spelling "yonly". */
  lemma YOnlySpaced()
    ensures ParsedMode(Some("y only")) == YOnly
  {
    SpaceSplit();
    SpacedYOnly("y", "only");
  }

  lemma SpaceSplit()
    ensures "y" + [' '] + "only" == "y only" && "y" + "only" == "yonly"
  {
  }

  /** A blank between two parts of "yonly" is dropped. */
  lemma SpacedYOnly(a: string, b: string)
    requires a + b == "yonly"
    ensures ParsedMode(Some(a + [' '] + b)) == YOnly
  {
    DroppedCharacterIgnored(a, ' ', b);
    ParsesYOnlyCompact();
  }

  lemma ParsesYOnlyCompact()
    ensures ParsedMode(Some("yonly")) == YOnly
  {
    NormalSpellingParses("yonly", YOnly);
  }
}
