/**
 * Input checks and clean-up applied to request fields: password strength, HTML-entity
 * escaping of free text, truncation and the e-mail pattern.
 */
module Validator {

  import opened Wrappers
  import opened Text
  import ObjectIds

  type Byte = ObjectIds.Byte

  // ---------------------------------------------------------------------------
  // UTF-8 length: Go's `len` on a string counts bytes, not characters.

  /** The UTF-8 encoding of one code point. */
  function EncodeRune(c: char): (r: seq<Byte>)
    ensures 1 <= |r| <= 4
    ensures |r| == 1 <==> c as int < 0x80
  {
    var v := c as int;
    if v < 0x80 then [v]
    else if v < 0x800 then [0xC0 + v / 64, 0x80 + v % 64]
    else if v < 0x10000 then [0xE0 + v / 4096, 0x80 + (v / 64) % 64, 0x80 + v % 64]
    else [0xF0 + v / 262144, 0x80 + (v / 4096) % 64, 0x80 + (v / 64) % 64, 0x80 + v % 64]
  }

  /** The bytes Go stores for a string; never shorter than the string, and as long exactly when it is ASCII. */
  function Utf8(s: string): (r: seq<Byte>)
    ensures |r| >= |s|
    ensures |r| == |s| <==> forall i :: 0 <= i < |s| ==> s[i] as int < 0x80
  {
    if s == [] then [] else EncodeRune(s[0]) + Utf8(s[1..])
  }

  // ---------------------------------------------------------------------------
  // Password strength

  datatype CharClass = Upper | Lower | Digit | Special

  /** The punctuation the special-character class admits (not the back-quote or the tilde). */
  predicate IsSpecial(c: char)
  {
    c in "!@#$%^&*()_+-=[]{};':\"\\|,.<>/?"
  }

  predicate InClass(c: char, k: CharClass)
  {
    match k
    case Upper => IsAsciiUpper(c)
    case Lower => IsAsciiLower(c)
    case Digit => IsAsciiDigit(c)
    case Special => IsSpecial(c)
  }

  /** A search for one character of class `k`, as an unanchored one-character regular expression does. */
  function HasClass(s: string, k: CharClass): (r: bool)
    ensures r <==> exists i :: 0 <= i < |s| && InClass(s[i], k)
  {
    if s == [] then false
    else if InClass(s[0], k) then true
    else
      assert forall i :: 1 <= i < |s| ==> s[i] == s[1..][i - 1];
      HasClass(s[1..], k)
  }

  /**
   * At least 8 bytes long and containing an ASCII upper-case letter, an ASCII
   * lower-case letter, a digit and one of the listed special characters.
   */
  function IsStrongPassword(password: string): (r: bool)
    ensures |Utf8(password)| < 8 ==> !r
    ensures r <==> |Utf8(password)| >= 8
                   && (exists i :: 0 <= i < |password| && IsAsciiUpper(password[i]))
                   && (exists i :: 0 <= i < |password| && IsAsciiLower(password[i]))
                   && (exists i :: 0 <= i < |password| && IsAsciiDigit(password[i]))
                   && (exists i :: 0 <= i < |password| && IsSpecial(password[i]))
  {
    if |Utf8(password)| < 8 then false
    else
      var u, l, d, p := HasClass(password, Upper), HasClass(password, Lower),
                        HasClass(password, Digit), HasClass(password, Special);
      assert u ==> exists i :: 0 <= i < |password| && IsAsciiUpper(password[i]);
      assert l ==> exists i :: 0 <= i < |password| && IsAsciiLower(password[i]);
      assert d ==> exists i :: 0 <= i < |password| && IsAsciiDigit(password[i]);
      assert p ==> exists i :: 0 <= i < |password| && IsSpecial(password[i]);
      u && l && d && p
  }

  // ---------------------------------------------------------------------------
  // HTML-entity escaping

  /** The five characters that are replaced by entities. */
  predicate IsMarkup(c: char)
  {
    c == '<' || c == '>' || c == '"' || c == '\'' || c == '/'
  }

  predicate NoMarkup(s: string)
  {
    forall i :: 0 <= i < |s| ==> !IsMarkup(s[i])
  }

  /** The entity each markup character becomes; every other character stands for itself. */
  function EscapeChar(c: char): (r: string)
    ensures NoMarkup(r)
  {
    if c == '<' then "&lt;"
    else if c == '>' then "&gt;"
    else if c == '"' then "&quot;"
    else if c == '\'' then "&#x27;"
    else if c == '/' then "&#x2F;"
    else [c]
  }

  /** Character-by-character escaping: the reference meaning of the replacement chain. */
  function Escape(s: string): (r: string)
    ensures NoMarkup(r)
  {
    if s == [] then [] else EscapeChar(s[0]) + Escape(s[1..])
  }

  /** The five replacements in the order the source applies them. */
  function ReplaceMarkup(s: string): string
  {
    var a := ReplaceAll(s, '<', "&lt;");
    var b := ReplaceAll(a, '>', "&gt;");
    var c := ReplaceAll(b, '"', "&quot;");
    var d := ReplaceAll(c, '\'', "&#x27;");
    ReplaceAll(d, '/', "&#x2F;")
  }

  /**
   * Escapes the markup characters and trims surrounding white space.  The result
   * holds no markup character and no surrounding space, and a string that already
   * has neither is returned unchanged.  It is written with the character-wise
   * `Escape`; `SanitizeIsReplaceChain` proves it equal to the chain of five
   * replacements followed by `TrimSpace`, as the source writes it.
   */
  function SanitizeString(input: string): (r: string)
    ensures NoMarkup(r) && Trimmed(r)
    ensures NoMarkup(input) && Trimmed(input) ==> r == input
  {
    assert NoMarkup(input) ==> Escape(input) == input by {
      if NoMarkup(input) { NoMarkupEscape(input); }
    }
    TrimSpace(Escape(input))
  }

  lemma {:induction false} ReplaceAllAppend(u: string, v: string, c: char, rep: string)
    ensures ReplaceAll(u + v, c, rep) == ReplaceAll(u, c, rep) + ReplaceAll(v, c, rep)
  {
    if u == [] {
      assert u + v == v;
    } else {
      assert (u + v)[0] == u[0] && (u + v)[1..] == u[1..] + v;
      ReplaceAllAppend(u[1..], v, c, rep);
    }
  }

  lemma {:induction false} ReplaceMarkupAppend(u: string, v: string)
    ensures ReplaceMarkup(u + v) == ReplaceMarkup(u) + ReplaceMarkup(v)
  {
    var a1, a2 := ReplaceAll(u, '<', "&lt;"), ReplaceAll(v, '<', "&lt;");
    ReplaceAllAppend(u, v, '<', "&lt;");
    var b1, b2 := ReplaceAll(a1, '>', "&gt;"), ReplaceAll(a2, '>', "&gt;");
    ReplaceAllAppend(a1, a2, '>', "&gt;");
    var c1, c2 := ReplaceAll(b1, '"', "&quot;"), ReplaceAll(b2, '"', "&quot;");
    ReplaceAllAppend(b1, b2, '"', "&quot;");
    var d1, d2 := ReplaceAll(c1, '\'', "&#x27;"), ReplaceAll(c2, '\'', "&#x27;");
    ReplaceAllAppend(c1, c2, '\'', "&#x27;");
    ReplaceAllAppend(d1, d2, '/', "&#x2F;");
  }

  lemma {:induction false} ReplaceAllOne(x: char, c: char, rep: string)
    ensures ReplaceAll([x], c, rep) == if x == c then rep else [x]
  {
    assert [x][1..] == [];
  }

  /** One character through the five replacements: only the replacement for that character fires. */
  lemma {:induction false} ReplaceMarkupChar(c: char)
    ensures ReplaceMarkup([c]) == EscapeChar(c)
  {
    ReplaceAllOne(c, '<', "&lt;");
    var a := ReplaceAll([c], '<', "&lt;");
    if c == '<' {
      assert '>' !in a && '"' !in a && '\'' !in a && '/' !in a;
    } else {
      ReplaceAllOne(c, '>', "&gt;");
      var b := ReplaceAll(a, '>', "&gt;");
      if c == '>' {
        assert '"' !in b && '\'' !in b && '/' !in b;
      } else {
        ReplaceAllOne(c, '"', "&quot;");
        var d := ReplaceAll(b, '"', "&quot;");
        if c == '"' {
          assert '\'' !in d && '/' !in d;
        } else {
          ReplaceAllOne(c, '\'', "&#x27;");
          var e := ReplaceAll(d, '\'', "&#x27;");
          if c == '\'' {
            assert '/' !in e;
          } else {
            ReplaceAllOne(c, '/', "&#x2F;");
          }
        }
      }
    }
  }

  /** The replacement chain escapes every character independently, as `Escape` does. */
  lemma {:induction false} EscapedIsReplaced(s: string)
    ensures ReplaceMarkup(s) == Escape(s)
  {
    if s != [] {
      assert s == [s[0]] + s[1..];
      ReplaceMarkupAppend([s[0]], s[1..]);
      ReplaceMarkupChar(s[0]);
      EscapedIsReplaced(s[1..]);
    }
  }

  lemma {:induction false} NoMarkupEscape(s: string)
    requires NoMarkup(s)
    ensures Escape(s) == s
  {
    if s != [] {
      NoMarkupEscape(s[1..]);
    }
  }

  /** Sanitising twice is the same as sanitising once. */
  lemma {:induction false} SanitizeIdempotent(s: string)
    ensures SanitizeString(SanitizeString(s)) == SanitizeString(s)
  {
  }

  /** The sanitised text is the source's replacement chain with surrounding space trimmed. */
  lemma {:induction false} SanitizeIsReplaceChain(s: string)
    ensures SanitizeString(s) == TrimSpace(ReplaceMarkup(s))
  {
    EscapedIsReplaced(s);
  }

  // ---------------------------------------------------------------------------
  // The partial `$set` the update handlers build: a text field is set, sanitised,
  // only when the request gives a non-empty value for it.

  /** A requested text field was left alone when empty and stored sanitised otherwise. */
  predicate TextSet(before: string, requested: string, after: string)
  {
    if requested == "" then after == before else after == SanitizeString(requested)
  }

  /** The value a text field has after an update that requests `requested`. */
  function SetText(before: string, requested: string): (after: string)
    ensures TextSet(before, requested, after)
  {
    if requested == "" then before else SanitizeString(requested)
  }

  // ---------------------------------------------------------------------------
  // Truncation, on the string's bytes

  const Ellipsis: seq<Byte> := [46, 46, 46]

  /**
   * A string of at most `maxLength` bytes is kept; a longer one is cut to its first
   * `maxLength` bytes and "..." is appended.
   */
  function TruncateString(s: seq<Byte>, maxLength: nat): (r: seq<Byte>)
    ensures |s| <= maxLength ==> r == s
    ensures |s| > maxLength ==> |r| == maxLength + 3 && r[..maxLength] == s[..maxLength]
                                && r[maxLength..] == Ellipsis
    ensures |r| <= maxLength + 3
  {
    if |s| > maxLength then s[..maxLength] + Ellipsis else s
  }

  // ---------------------------------------------------------------------------
  // E-mail pattern  ^[a-zA-Z0-9._%+-]+@[a-zA-Z0-9.-]+\.[a-zA-Z]{2,}$

  predicate LocalChar(c: char)
  {
    IsAsciiLetter(c) || IsAsciiDigit(c) || c == '.' || c == '_' || c == '%' || c == '+' || c == '-'
  }

  predicate DomainChar(c: char)
  {
    IsAsciiLetter(c) || IsAsciiDigit(c) || c == '.' || c == '-'
  }

  /**
   * `s` splits as local "@" domain "." tld, with the "@" at `at` and the "." at
   * `dot`: a non-empty local part, a non-empty domain and a final label of at
   * least two letters.
   */
  predicate EmailSplit(s: string, at: int, dot: int)
  {
    0 < at && at + 1 < dot && dot + 2 < |s| + 1 && dot < |s|
    && s[at] == '@' && s[dot] == '.'
    && (forall i :: 0 <= i < at ==> LocalChar(s[i]))
    && (forall i :: at < i < dot ==> DomainChar(s[i]))
    && (forall i :: dot < i < |s| ==> IsAsciiLetter(s[i]))
    && |s| - dot - 1 >= 2
  }

  /** Position of the first `c` in `s`. */
  function FirstIndex(s: string, c: char): (r: Option<nat>)
    ensures r.Some? ==> r.value < |s| && s[r.value] == c && forall k :: 0 <= k < r.value ==> s[k] != c
    ensures r.None? ==> forall k :: 0 <= k < |s| ==> s[k] != c
  {
    if s == [] then None
    else if s[0] == c then Some(0)
    else
      var t := FirstIndex(s[1..], c);
      if t.None? then None else Some(t.value + 1)
  }

  /** Position of the last `c` in `s[lo..]`. */
  function LastIndexFrom(s: string, c: char, lo: nat): (r: Option<nat>)
    requires lo <= |s|
    ensures r.Some? ==> lo <= r.value < |s| && s[r.value] == c && forall k :: r.value < k < |s| ==> s[k] != c
    ensures r.None? ==> forall k :: lo <= k < |s| ==> s[k] != c
    decreases |s|
  {
    if |s| == lo then None
    else if s[|s| - 1] == c then Some(|s| - 1)
    else LastIndexFrom(s[..|s| - 1], c, lo)
  }

  /** The pattern's check: split at the first "@" and at the last "." after it. */
  function IsValidEmail(email: string): (r: bool)
  {
    var at := FirstIndex(email, '@');
    if at.None? then false
    else
      var dot := LastIndexFrom(email, '.', at.value + 1);
      dot.Some? && EmailSplit(email, at.value, dot.value)
  }

  /** The check accepts exactly the strings that split as the pattern describes. */
  lemma {:induction false} IsValidEmailMeaning(email: string)
    ensures IsValidEmail(email) <==> exists at, dot :: EmailSplit(email, at, dot)
  {
    if exists at, dot :: EmailSplit(email, at, dot) {
      var at, dot :| EmailSplit(email, at, dot);
      var a := FirstIndex(email, '@');
      assert !LocalChar('@');
      assert a == Some(at);
      var d := LastIndexFrom(email, '.', at + 1);
      assert !IsAsciiLetter('.');
      assert d.Some? && d.value == dot;
    }
  }
}
