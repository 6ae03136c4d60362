/** Transliteration of Unicode text to 7-bit ASCII (utils.go). Text is a
    sequence of code points; Go's decoding of invalid UTF-8 is not modelled. */
module Ascii {
  import opened Text

  predicate IsAscii(s: string)
  {
    forall i :: 0 <= i < |s| ==> s[i] < 128 as char
  }

  /** The replacement table of `unicodeToASCII`. The entry for the backtick
      (U+0060) is in the table but is never consulted, because runes below
      128 are copied before the table is looked at. */
  function Replacement(r: char): (v: Option<string>)
    ensures v.Some? ==> v.value != [] && IsAscii(v.value)
  {
    match r
    // Latin-1 Supplement, lower case
    case '\U{E0}' => Some("a") case '\U{E1}' => Some("a") case '\U{E2}' => Some("a")
    case '\U{E3}' => Some("a") case '\U{E4}' => Some("a") case '\U{E5}' => Some("a")
    case '\U{E8}' => Some("e") case '\U{E9}' => Some("e") case '\U{EA}' => Some("e") case '\U{EB}' => Some("e")
    case '\U{EC}' => Some("i") case '\U{ED}' => Some("i") case '\U{EE}' => Some("i") case '\U{EF}' => Some("i")
    case '\U{F2}' => Some("o") case '\U{F3}' => Some("o") case '\U{F4}' => Some("o")
    case '\U{F5}' => Some("o") case '\U{F6}' => Some("o")
    case '\U{F9}' => Some("u") case '\U{FA}' => Some("u") case '\U{FB}' => Some("u") case '\U{FC}' => Some("u")
    case '\U{FD}' => Some("y") case '\U{FF}' => Some("y")
    case '\U{F1}' => Some("n") case '\U{E7}' => Some("c")
    // Latin-1 Supplement, upper case
    case '\U{C0}' => Some("A") case '\U{C1}' => Some("A") case '\U{C2}' => Some("A")
    case '\U{C3}' => Some("A") case '\U{C4}' => Some("A") case '\U{C5}' => Some("A")
    case '\U{C8}' => Some("E") case '\U{C9}' => Some("E") case '\U{CA}' => Some("E") case '\U{CB}' => Some("E")
    case '\U{CC}' => Some("I") case '\U{CD}' => Some("I") case '\U{CE}' => Some("I") case '\U{CF}' => Some("I")
    case '\U{D2}' => Some("O") case '\U{D3}' => Some("O") case '\U{D4}' => Some("O")
    case '\U{D5}' => Some("O") case '\U{D6}' => Some("O")
    case '\U{D9}' => Some("U") case '\U{DA}' => Some("U") case '\U{DB}' => Some("U") case '\U{DC}' => Some("U")
    case '\U{DD}' => Some("Y")
    case '\U{D1}' => Some("N") case '\U{C7}' => Some("C")
    // quotes
    case '\U{2018}' => Some("'") case '\U{2019}' => Some("'")
    case '\U{201C}' => Some("\"") case '\U{201D}' => Some("\"")
    case '`' => Some("'") case '\U{B4}' => Some("'")
    // dashes
    case '\U{2014}' => Some("-") case '\U{2013}' => Some("-") case '\U{2212}' => Some("-")
    // other symbols
    case '\U{2022}' => Some("*") case '\U{B7}' => Some(".") case '\U{2026}' => Some("...")
    case '\U{A9}' => Some("(c)") case '\U{AE}' => Some("(R)") case '\U{2122}' => Some("(TM)")
    case '\U{B0}' => Some(" deg") case '\U{B1}' => Some("+/-")
    case '\U{D7}' => Some("x") case '\U{F7}' => Some("/")
    case '\U{20AC}' => Some("EUR") case '\U{A3}' => Some("GBP") case '\U{A5}' => Some("YEN")
    case _ => None
  }

  /** `unicodeToASCII`: the table entry, else a space for white space, else "?". */
  function UnicodeToAscii(r: char): (a: string)
    ensures a != [] && IsAscii(a)
    ensures Replacement(r).Some? ==> a == Replacement(r).value
    ensures Replacement(r).None? ==> a == (if IsSpace(r) then " " else "?")
  {
    match Replacement(r)
    case Some(v) => v
    case None => if IsSpace(r) then " " else "?"
  }

  /** What one rune of the input becomes in the output. */
  function RuneImage(r: char): (a: string)
    ensures a != [] && IsAscii(a)
    ensures r < 128 as char ==> a == [r]
  {
    if r < 128 as char then [r] else UnicodeToAscii(r)
  }

  /** The specification of `UTF8ToASCII`: the images of the runes, in input order. */
  function Transliterate(s: string): string
  {
    if s == [] then [] else Transliterate(s[..|s| - 1]) + RuneImage(s[|s| - 1])
  }

  /** `UTF8ToASCII`: the loop over the runes appending to a builder. */
  method UTF8ToASCII(s: string) returns (result: string)
    ensures result == Transliterate(s)
  {
    result := [];
    for i := 0 to |s|
      invariant result == Transliterate(s[..i])
    {
      assert s[..i + 1][..i] == s[..i];
      if s[i] < 128 as char {
        result := result + [s[i]];
      } else {
        result := result + UnicodeToAscii(s[i]);
      }
    }
    assert s[..|s|] == s;
  }

  /** Every output character is ASCII, and every input rune contributes at least one. */
  lemma {:induction false} TransliterateAscii(s: string)
    ensures IsAscii(Transliterate(s))
    ensures |Transliterate(s)| >= |s|
  {
    if s != [] {
      TransliterateAscii(s[..|s| - 1]);
    }
  }

  /** Pure-ASCII text passes through unchanged. */
  lemma {:induction false} TransliterateAsciiIdentity(s: string)
    requires IsAscii(s)
    ensures Transliterate(s) == s
  {
    if s != [] {
      TransliterateAsciiIdentity(s[..|s| - 1]);
      assert s[..|s| - 1] + [s[|s| - 1]] == s;
    }
  }

  /** Transliterating twice is the same as transliterating once. */
  lemma TransliterateIdempotent(s: string)
    ensures Transliterate(Transliterate(s)) == Transliterate(s)
  {
    TransliterateAscii(s);
    TransliterateAsciiIdentity(Transliterate(s));
  }

  /** The images of the runes of a concatenation are concatenated in order. */
  lemma {:induction false} TransliterateAppend(s: string, t: string)
    ensures Transliterate(s + t) == Transliterate(s) + Transliterate(t)
    decreases |t|
  {
    if t != [] {
      var u := t[..|t| - 1];
      TransliterateAppend(s, u);
      assert (s + t)[..|s + t| - 1] == s + u;
    } else {
      assert s + t == s;
    }
  }

  /** A backtick is copied unchanged, although the table maps it to a quote. */
  lemma BacktickKept()
    ensures Transliterate("`") == "`"
    ensures Replacement('`') == Some("'")
  {
    assert "`"[..0] == [];
  }
}
