/** The string operations of Rust that the HTTP reader uses. */
module Text {
  import opened Prelude

  /** `char::is_whitespace`: the Unicode White_Space property. */
  predicate IsWhitespace(c: char) {
    var n := c as int;
    9 <= n <= 13 || n == 0x20 || n == 0x85 || n == 0xA0 || n == 0x1680 || 0x2000 <= n <= 0x200A
    || n == 0x2028 || n == 0x2029 || n == 0x202F || n == 0x205F || n == 0x3000
  }

  /** The 25 code points that have it. */
  lemma WhitespaceExactly(c: char)
    ensures IsWhitespace(c) <==>
      c as int in {0x9, 0xA, 0xB, 0xC, 0xD, 0x20, 0x85, 0xA0, 0x1680, 0x2000, 0x2001, 0x2002, 0x2003, 0x2004, 0x2005,
                   0x2006, 0x2007, 0x2008, 0x2009, 0x200A, 0x2028, 0x2029, 0x202F, 0x205F, 0x3000}
  {
  }

  function TrimStart(s: string): (r: string)
    ensures |r| <= |s|
    ensures r != [] ==> !IsWhitespace(r[0])
  {
    if s == [] || !IsWhitespace(s[0]) then s else TrimStart(s[1..])
  }

  function TrimEnd(s: string): (r: string)
    ensures r <= s
  {
    if s == [] || !IsWhitespace(s[|s| - 1]) then s else TrimEnd(s[..|s| - 1])
  }

  /** `str::trim`. */
  function Trim(s: string): (r: string) {
    TrimEnd(TrimStart(s))
  }

  /** Position of the first `c`. */
  function IndexOf(s: string, c: char): (r: Option<nat>)
    ensures r.Some? ==> r.value < |s| && s[r.value] == c && c !in s[..r.value]
    ensures r.None? ==> c !in s
  {
    if s == [] then None
    else if s[0] == c then Some(0)
    else match IndexOf(s[1..], c)
      case None => None
      case Some(i) => assert s[..i + 1] == [s[0]] + s[1..][..i]; Some(i + 1)
  }

  /** `str::split_once`. */
  function SplitOnce(s: string, c: char): (r: Option<(string, string)>) {
    match IndexOf(s, c)
    case None => None
    case Some(i) => Some((s[..i], s[i + 1..]))
  }

  function WordLength(s: string): (n: nat)
    ensures n <= |s|
  {
    if s == [] || IsWhitespace(s[0]) then 0 else 1 + WordLength(s[1..])
  }

  /** The next item of `split_whitespace` and what remains. */
  function NextWord(s: string): (r: Option<(string, string)>) {
    var t := TrimStart(s);
    if t == [] then None else Some((t[..WordLength(t)], t[WordLength(t)..]))
  }

  predicate AllWhitespace(s: string) {
    forall i: nat :: i < |s| ==> IsWhitespace(s[i])
  }

  /** A word: characters that are not white space, up to white space or the end. */
  predicate IsWord(word: string, rest: string) {
    && word != [] && (forall i: nat :: i < |word| ==> !IsWhitespace(word[i]))
    && (rest == [] || IsWhitespace(rest[0]))
  }

  lemma {:induction false} TrimStartDrops(before: string, s: string)
    requires AllWhitespace(before) && (s == [] || !IsWhitespace(s[0]))
    ensures TrimStart(before + s) == s
    decreases |before|
  {
    if before == [] {
      assert before + s == s;
    } else {
      assert (before + s)[1..] == before[1..] + s && (before + s)[0] == before[0];
      TrimStartDrops(before[1..], s);
    }
  }

  lemma {:induction false} WordLengthOf(word: string, rest: string)
    requires forall i: nat :: i < |word| ==> !IsWhitespace(word[i])
    requires rest == [] || IsWhitespace(rest[0])
    ensures WordLength(word + rest) == |word|
    decreases |word|
  {
    if word == [] {
      assert word + rest == rest;
    } else {
      assert (word + rest)[1..] == word[1..] + rest && (word + rest)[0] == word[0];
      WordLengthOf(word[1..], rest);
    }
  }

  /** White space before a word is skipped, and the word ends where white space begins. */
  lemma NextWordOf(before: string, word: string, rest: string)
    requires AllWhitespace(before)
    ensures IsWord(word, rest) ==> NextWord(before + (word + rest)) == Some((word, rest))
    ensures NextWord(before) == None
  {
    assert before + [] == before;
    TrimStartDrops(before, []);
    if IsWord(word, rest) {
      assert (word + rest)[0] == word[0];
      TrimStartDrops(before, word + rest);
      WordLengthOf(word, rest);
      SplitConcat(word, rest);
    }
  }

  /** `char::to_digit`. */
  function ToDigit(c: char, radix: nat): (r: Option<nat>)
    requires 2 <= radix <= 16
    ensures r.Some? ==> r.value < radix
  {
    var d := if '0' <= c <= '9' then c as int - '0' as int
             else if 'a' <= c <= 'f' then c as int - 'a' as int + 10
             else if 'A' <= c <= 'F' then c as int - 'A' as int + 10
             else radix;
    if d < radix then Some(d) else None
  }

  function ParseDigits(s: string, radix: nat): (r: Option<nat>)
    requires 2 <= radix <= 16
  {
    if s == [] then Some(0)
    else
      match (ParseDigits(s[..|s| - 1], radix), ToDigit(s[|s| - 1], radix))
      case (Some(high), Some(low)) => Some(high * radix + low)
      case _ => None
  }

  /** `usize::from_str_radix`: an optional plus sign, then at least one digit, without overflow. */
  function ParseUsize(s: string, radix: nat): (r: Option<nat>)
    requires 2 <= radix <= 16
    ensures r.Some? ==> r.value < USIZE_VALUES
  {
    if s == [] || s == ['+'] then None
    else
      match ParseDigits(if s[0] == '+' then s[1..] else s, radix)
      case None => None
      case Some(n) => if n < USIZE_VALUES then Some(n) else None
  }

  predicate IsDigit(c: char) {
    '0' <= c <= '9' || 'a' <= c <= 'f'
  }

  function DigitChar(d: nat): (c: char)
    requires d < 16
    ensures IsDigit(c) && ToDigit(c, 16) == Some(d) && (d < 10 ==> ToDigit(c, 10) == Some(d))
    ensures c != '+' && !IsWhitespace(c)
  {
    if d < 10 then ('0' as int + d) as char else ('a' as int + (d - 10)) as char
  }

  /** The digits of a number, lower case, without leading zeros. */
  function Format(n: nat, radix: nat): (r: string)
    requires radix == 10 || radix == 16
    ensures r != [] && forall i: nat :: i < |r| ==> IsDigit(r[i])
    decreases n
  {
    if n < radix then [DigitChar(n)] else Format(n / radix, radix) + [DigitChar(n % radix)]
  }

  function UpperDigitChar(d: nat): (c: char)
    requires d < 16
  {
    if d < 10 then DigitChar(d) else ('A' as int + (d - 10)) as char
  }

  /** The digits of a radix are those characters in either case and no others. */
  lemma ToDigitExactly(c: char, radix: nat, d: nat)
    requires 2 <= radix <= 16
    ensures ToDigit(c, radix) == Some(d) <==> d < radix && (c == DigitChar(d) || c == UpperDigitChar(d))
  {
  }

  lemma DigitCharParses(d: nat, radix: nat)
    requires radix == 10 || radix == 16
    requires d < radix
    ensures ToDigit(DigitChar(d), radix) == Some(d)
  {
  }

  lemma ParseLastDigit(s: string, c: char, radix: nat)
    requires 2 <= radix <= 16
    requires ParseDigits(s, radix).Some? && ToDigit(c, radix).Some?
    ensures ParseDigits(s + [c], radix) == Some(ParseDigits(s, radix).value * radix + ToDigit(c, radix).value)
  {
    hide ToDigit;
    assert (s + [c])[..|s + [c]| - 1] == s;
  }

  lemma Recompose(n: nat, radix: nat)
    requires radix == 10 || radix == 16
    ensures n / radix * radix + n % radix == n && n % radix < radix
    ensures n < radix ==> n / radix == 0 && n % radix == n
  {
    if radix == 10 {
    } else {
    }
  }

  lemma {:induction false} ParseDigitsOfFormat(n: nat, radix: nat)
    requires radix == 10 || radix == 16
    ensures ParseDigits(Format(n, radix), radix) == Some(n)
    decreases n
  {
    hide ParseDigits, ToDigit, DigitChar;
    Recompose(n, radix);
    DigitCharParses(n % radix, radix);
    if n < radix {
      NoDigits(radix);
      ParseLastDigit([], DigitChar(n), radix);
      assert [] + [DigitChar(n)] == [DigitChar(n)];
    } else {
      ParseDigitsOfFormat(n / radix, radix);
      ParseLastDigit(Format(n / radix, radix), DigitChar(n % radix), radix);
    }
  }

  lemma NoDigits(radix: nat)
    requires 2 <= radix <= 16
    ensures ParseDigits([], radix) == Some(0)
  {
  }

  /** Formatting a `usize` and parsing it gives it back, with or without a plus sign; larger numbers are refused. */
  lemma ParseFormatted(n: nat, radix: nat)
    requires radix == 10 || radix == 16
    ensures ParseUsize(Format(n, radix), radix) == if n < USIZE_VALUES then Some(n) else None
    ensures ParseUsize("+" + Format(n, radix), radix) == ParseUsize(Format(n, radix), radix)
  {
    ParseDigitsOfFormat(n, radix);
    assert Format(n, radix)[0] != '+';
    assert ("+" + Format(n, radix))[1..] == Format(n, radix);
  }

  /** Trimming stops at the first character that is not white space. */
  lemma {:induction false} TrimEndDrops(s: string, tail: string)
    requires s == [] || !IsWhitespace(s[|s| - 1])
    requires forall i: nat :: i < |tail| ==> IsWhitespace(tail[i])
    ensures TrimEnd(s + tail) == s
    decreases |tail|
  {
    if tail == [] {
      assert s + tail == s;
    } else {
      assert (s + tail)[..|s + tail| - 1] == s + tail[..|tail| - 1];
      TrimEndDrops(s, tail[..|tail| - 1]);
    }
  }

  lemma TrimDrops(s: string, tail: string)
    requires s != [] && !IsWhitespace(s[0]) && !IsWhitespace(s[|s| - 1])
    requires forall i: nat :: i < |tail| ==> IsWhitespace(tail[i])
    ensures Trim(s + tail) == s
  {
    assert TrimStart(s + tail) == s + tail;
    TrimEndDrops(s, tail);
  }

  lemma {:induction false} TrimBlank(s: string)
    requires forall i: nat :: i < |s| ==> IsWhitespace(s[i])
    ensures Trim(s) == []
    decreases |s|
  {
    if s != [] {
      TrimBlank(s[1..]);
    }
  }
}
