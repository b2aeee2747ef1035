/**
 The text a log call stands for: a pure reading of the format string and its arguments.
 */
module LogFormat {
  import opened Words

  // A C string; its terminating NUL is not part of it.
  type CString = s: string | '\0' !in s

  // One variadic argument: a 32-bit word or a pointer to a string.
  datatype Arg = Num(word: Word) | Str(text: CString)

  const UNSUPPORTED: CString := "[Unsupported Tag]"

  // ---------------------------------------------------------------- numbers

  function DigitChar(d: nat, upper: bool): char
    requires d < 16
  {
    if d < 10 then '0' + d as char
    else (if upper then 'A' else 'a') + (d - 10) as char
  }

  function DigitValue(c: char): nat {
    if '0' <= c <= '9' then c as nat - '0' as nat
    else if 'a' <= c <= 'f' then c as nat - 'a' as nat + 10
    else if 'A' <= c <= 'F' then c as nat - 'A' as nat + 10
    else 16
  }

  // Positional notation, no leading zeros.
  function Numeral(n: nat, base: nat, upper: bool): string
    requires 2 <= base <= 16
  {
    if n < base then [DigitChar(n, upper)]
    else Numeral(n / base, base, upper) + [DigitChar(n % base, upper)]
  }

  function SignedNumeral(x: int): string {
    if x < 0 then "-" + Numeral(-x, 10, false) else Numeral(x, 10, false)
  }

  function ParseNumeral(s: string, base: nat): nat {
    if s == "" then 0 else base * ParseNumeral(s[..|s| - 1], base) + DigitValue(s[|s| - 1])
  }

  function ParseSigned(s: string): int {
    if s != "" && s[0] == '-' then 0 - ParseNumeral(s[1..], 10) else ParseNumeral(s, 10)
  }

  lemma DigitReads(d: nat, upper: bool)
    requires d < 16
    ensures DigitValue(DigitChar(d, upper)) == d && (DigitChar(d, upper) == '0' <==> d == 0)
  {
  }

  lemma QuotientParts(n: nat, base: nat)
    requires base >= 2
    ensures base * (n / base) + n % base == n && n % base < base
    ensures n >= base ==> 0 < n / base < n
  {
  }

  lemma {:induction false} NumeralShape(n: nat, base: nat, upper: bool)
    requires 2 <= base <= 16
    ensures Numeral(n, base, upper) != ""
    ensures forall i :: 0 <= i < |Numeral(n, base, upper)| ==> DigitValue(Numeral(n, base, upper)[i]) < base
    ensures Numeral(n, base, upper)[0] == '0' <==> n == 0
  {
    hide DigitChar, DigitValue;
    DigitReads(if n < base then n else n % base, upper);
    if n >= base {
      QuotientParts(n, base);
      NumeralShape(n / base, base, upper);
    }
  }

  lemma {:induction false} NumeralParses(n: nat, base: nat, upper: bool)
    requires 2 <= base <= 16
    ensures ParseNumeral(Numeral(n, base, upper), base) == n
  {
    hide DigitChar, DigitValue;
    var s := Numeral(n, base, upper);
    DigitReads(if n < base then n else n % base, upper);
    QuotientParts(n, base);
    if n < base {
      assert s[..0] == "" && base * 0 == 0;
    } else {
      NumeralParses(n / base, base, upper);
      assert s[..|s| - 1] == Numeral(n / base, base, upper);
    }
  }

  // Every int32_t value, the least one included, reads back, in digits with no leading zero.
  lemma SignedNumeralParses(w: Word)
    ensures ParseSigned(SignedNumeral(ToInt(w))) == ToInt(w)
    ensures var s := SignedNumeral(ToInt(w));
            var digits := if ToInt(w) < 0 then s[1..] else s;
            digits != "" && (digits[0] == '0' <==> ToInt(w) == 0)
  {
    hide Numeral, ParseNumeral;
    var x: int := ToInt(w);
    var digits := Numeral(if x < 0 then -x else x, 10, false);
    NumeralShape(if x < 0 then -x else x, 10, false);
    NumeralParses(if x < 0 then -x else x, 10, false);
    assert x < 0 ==> SignedNumeral(x)[1..] == digits;
  }

  // ---------------------------------------------------------------- the format string

  // Conversions that take an argument.
  predicate TakesNumber(c: char) {
    c in {'d', 'i', 'u', 'x', 'X', 'p', 'c'}
  }

  predicate TakesArg(c: char) {
    TakesNumber(c) || c == 's'
  }

  // What one conversion prints.
  function Converted(c: char, a: Arg): string
    requires TakesNumber(c) ==> a.Num?
    requires c == 's' ==> a.Str?
    requires TakesArg(c)
  {
    match c
    case 'd' => SignedNumeral(ToInt(a.word))
    case 'i' => SignedNumeral(ToInt(a.word))
    case 'u' => Numeral(a.word, 10, false)
    case 'x' => Numeral(a.word, 16, false)
    case 'X' => Numeral(a.word, 16, true)
    case 'p' => "0x" + Numeral(a.word, 16, false)
    case 'c' => [(a.word % 256) as char]
    case _ => a.text
  }

  // The piece at the front of a format string: an ordinary character, a conversion, or a % whose
  // tag is not known. The tag of the last kind stays, to be printed as an ordinary character.
  predicate Converts(fmt: string) {
    |fmt| >= 2 && fmt[0] == '%' && TakesArg(fmt[1])
  }

  function Width(fmt: string): nat {
    if Converts(fmt) || (|fmt| >= 2 && fmt[0] == '%' && fmt[1] == '%') then 2 else 1
  }

  function Taken(fmt: string): nat {
    if Converts(fmt) then 1 else 0
  }

  predicate HeadMatches(fmt: string, args: seq<Arg>) {
    Converts(fmt) ==> args != [] && (fmt[1] == 's' <==> args[0].Str?)
  }

  function Head(fmt: string, args: seq<Arg>): string
    requires fmt != "" && HeadMatches(fmt, args)
  {
    if fmt[0] != '%' then [fmt[0]]
    else if Converts(fmt) then Converted(fmt[1], args[0])
    else if |fmt| >= 2 && fmt[1] == '%' then "%"
    else UNSUPPORTED
  }

  // The arguments are there and of the kind each conversion reads: what C asks of the caller.
  predicate Matches(fmt: string, args: seq<Arg>) {
    fmt == "" || (HeadMatches(fmt, args) && Matches(fmt[Width(fmt)..], args[Taken(fmt)..]))
  }

  function Format(fmt: string, args: seq<Arg>): string
    requires Matches(fmt, args)
  {
    if fmt == "" then "" else Head(fmt, args) + Format(fmt[Width(fmt)..], args[Taken(fmt)..])
  }

  // How many arguments a format string reads.
  function Reads(fmt: string): nat {
    if fmt == "" then 0 else Taken(fmt) + Reads(fmt[Width(fmt)..])
  }

  // No lone % at the end, which would take what follows as its tag.
  predicate Complete(fmt: string) {
    fmt == "" || (fmt != "%" && Complete(fmt[Width(fmt)..]))
  }

  lemma HeadOfConcat(f: string, g: string, args: seq<Arg>)
    requires f != "" && f != "%"
    ensures Width(f + g) == Width(f) && Taken(f + g) == Taken(f)
    ensures (f + g)[Width(f)..] == f[Width(f)..] + g
    ensures HeadMatches(f + g, args) <==> HeadMatches(f, args)
    ensures HeadMatches(f, args) ==> Taken(f) <= |args| && Head(f + g, args) == Head(f, args)
    ensures 1 <= Width(f) <= |f|
  {
    assert |f| >= 2 ==> (f + g)[1] == f[1];
  }

  // Formatting goes piece by piece: a complete format followed by another prints the two texts one
  // after the other, the second from where the first stopped reading arguments.
  lemma {:induction false} FormatConcat(f: string, g: string, args: seq<Arg>)
    requires Complete(f) && Matches(f + g, args)
    ensures Reads(f) <= |args|
    ensures Matches(f, args) && Matches(g, args[Reads(f)..])
    ensures Format(f + g, args) == Format(f, args) + Format(g, args[Reads(f)..])
    decreases |f|
  {
    hide Head, HeadMatches, Width, Taken;
    if f == "" {
      assert f + g == g && args[0..] == args;
    } else {
      HeadOfConcat(f, g, args);
      FormatConcatRest(f, g, args);
    }
  }

  lemma {:induction false} FormatConcatRest(f: string, g: string, args: seq<Arg>)
    requires f != "" && Complete(f) && Matches(f + g, args)
    requires Width(f + g) == Width(f) && Taken(f + g) == Taken(f)
    requires (f + g)[Width(f)..] == f[Width(f)..] + g
    requires HeadMatches(f, args) && Head(f + g, args) == Head(f, args)
    requires 1 <= Width(f) <= |f| && Taken(f) <= |args|
    ensures Reads(f) <= |args|
    ensures Matches(f, args) && Matches(g, args[Reads(f)..])
    ensures Format(f + g, args) == Format(f, args) + Format(g, args[Reads(f)..])
    decreases |f|, 0
  {
    hide Head, HeadMatches, Width, Taken;
    var rest, later := f[Width(f)..], args[Taken(f)..];
    FormatConcat(rest, g, later);
    assert later[Reads(rest)..] == args[Reads(f)..];
  }

  // Text without a tag prints as it is.
  lemma {:induction false} PlainText(fmt: string, args: seq<Arg>)
    requires '%' !in fmt
    ensures Matches(fmt, args) && Format(fmt, args) == fmt
  {
    if fmt != "" {
      PlainText(fmt[1..], args);
      assert args[0..] == args;
    }
  }

  // ---------------------------------------------------------------- what each tag prints

  predicate Decimal(s: string) {
    s != "" && forall i :: 0 <= i < |s| ==> s[i] in "0123456789"
  }

  predicate LowerHex(s: string) {
    s != "" && forall i :: 0 <= i < |s| ==> s[i] in "0123456789abcdef"
  }

  predicate UpperHex(s: string) {
    s != "" && forall i :: 0 <= i < |s| ==> s[i] in "0123456789ABCDEF"
  }

  // A numeral of more than one digit does not begin with a zero.
  predicate NoLeadingZero(s: string) {
    |s| > 1 ==> s[0] != '0'
  }

  lemma DigitsStand()
    ensures forall i :: 0 <= i < 16 ==> DigitValue("0123456789abcdef"[i]) == i
    ensures forall i :: 0 <= i < 16 ==> DigitValue("0123456789ABCDEF"[i]) == i
    ensures forall d :: 0 <= d < 16 ==> DigitChar(d, false) == "0123456789abcdef"[d]
    ensures forall d :: 0 <= d < 16 ==> DigitChar(d, true) == "0123456789ABCDEF"[d]
  {
  }

  lemma {:induction false} NumeralDigits(n: nat, base: nat, upper: bool)
    requires base == 10 || base == 16
    ensures base == 10 ==> Decimal(Numeral(n, base, upper))
    ensures base == 16 && !upper ==> LowerHex(Numeral(n, base, upper))
    ensures base == 16 && upper ==> UpperHex(Numeral(n, base, upper))
  {
    DigitsStand();
    if n >= base {
      QuotientParts(n, base);
      NumeralDigits(n / base, base, upper);
    }
  }

  lemma {:induction false} NumeralNoLeadingZero(n: nat, base: nat, upper: bool)
    requires base == 10 || base == 16
    ensures NoLeadingZero(Numeral(n, base, upper))
  {
    NumeralShape(n, base, upper);
  }

  // A format that is a single conversion prints what the conversion stands for.
  lemma OneTag(c: char, a: Arg)
    requires TakesArg(c) && (c == 's' <==> a.Str?)
    ensures Matches(['%', c], [a]) && Format(['%', c], [a]) == Converted(c, a)
  {
    var fmt := ['%', c];
    assert Width(fmt) == 2 && Taken(fmt) == 1 && fmt[2..] == "" && [a][1..] == [];
    assert Converted(c, a) + "" == Converted(c, a);
    hide Converted;
  }

  lemma UnsignedTag(w: Word)
    ensures Matches("%u", [Num(w)])
    ensures var s := Format("%u", [Num(w)]);
            Decimal(s) && NoLeadingZero(s) && ParseNumeral(s, 10) == w
  {
    hide Numeral, ParseNumeral, Decimal, NoLeadingZero;
    OneTag('u', Num(w));
    NumeralDigits(w, 10, false);
    NumeralNoLeadingZero(w, 10, false);
    NumeralParses(w, 10, false);
  }

  // %d and %i print the int32_t value, a minus sign in front of the digits of a negative one.
  lemma SignedTag(c: char, w: Word)
    requires c == 'd' || c == 'i'
    ensures Matches(['%', c], [Num(w)])
    ensures var s := Format(['%', c], [Num(w)]);
            var digits := if s != "" && s[0] == '-' then s[1..] else s;
            && Decimal(digits) && NoLeadingZero(digits)
            && ParseNumeral(digits, 10) == (if w < 0x8000_0000 then w else 0x1_0000_0000 - w)
            && (s != "" && s[0] == '-' <==> w >= 0x8000_0000)
  {
    hide Numeral, ParseNumeral, NoLeadingZero;
    OneTag(c, Num(w));
    var x: int := ToInt(w);
    var n: nat := if x < 0 then -x else x;
    NumeralDigits(n, 10, false);
    NumeralNoLeadingZero(n, 10, false);
    NumeralParses(n, 10, false);
    var digits := Numeral(n, 10, false);
    assert digits[0] in "0123456789" && ("-" + digits)[1..] == digits;
  }

  lemma HexTag(c: char, w: Word)
    requires c == 'x' || c == 'X'
    ensures Matches(['%', c], [Num(w)])
    ensures var s := Format(['%', c], [Num(w)]);
            && (if c == 'x' then LowerHex(s) else UpperHex(s))
            && NoLeadingZero(s) && ParseNumeral(s, 16) == w
  {
    hide Numeral, ParseNumeral, LowerHex, UpperHex, NoLeadingZero;
    OneTag(c, Num(w));
    NumeralDigits(w, 16, c == 'X');
    NumeralNoLeadingZero(w, 16, c == 'X');
    NumeralParses(w, 16, c == 'X');
  }

  lemma PointerTag(w: Word)
    ensures Matches("%p", [Num(w)])
    ensures var s := Format("%p", [Num(w)]);
            && |s| > 2 && s[..2] == "0x"
            && LowerHex(s[2..]) && NoLeadingZero(s[2..]) && ParseNumeral(s[2..], 16) == w
  {
    hide Numeral, ParseNumeral, NoLeadingZero;
    OneTag('p', Num(w));
    NumeralDigits(w, 16, false);
    NumeralNoLeadingZero(w, 16, false);
    NumeralParses(w, 16, false);
    var digits := Numeral(w, 16, false);
    assert ("0x" + digits)[2..] == digits && ("0x" + digits)[..2] == "0x";
  }

  lemma TextTags(text: CString, w: Word)
    ensures Matches("%s", [Str(text)]) && Format("%s", [Str(text)]) == text
    ensures Matches("%c", [Num(w)]) && Format("%c", [Num(w)]) == [(w % 256) as char]
    ensures Matches("%%", []) && Format("%%", []) == "%"
  {
    OneTag('s', Str(text));
    OneTag('c', Num(w));
    assert "%%"[2..] == "" && "%" + "" == "%";
    var none: seq<Arg> := [];
    assert none[0..] == none;
  }

  // A tag that is not known prints the notice and then stands as ordinary text; a lone % at the end
  // prints the notice alone.
  lemma UnknownTag(c: char, rest: string, args: seq<Arg>)
    requires c !in "diuxXpsc%" && Matches(rest, args)
    ensures Matches(['%', c] + rest, args)
    ensures Format(['%', c] + rest, args) == "[Unsupported Tag]" + [c] + Format(rest, args)
    ensures Matches("%", args) && Format("%", args) == "[Unsupported Tag]"
  {
    var fmt := ['%', c] + rest;
    assert fmt[1..] == [c] + rest && ([c] + rest)[1..] == rest && args[0..] == args;
    assert !TakesArg(c) && Width(fmt) == 1 && Width([c] + rest) == 1;
    assert Format([c] + rest, args) == [c] + Format(rest, args);
    assert UNSUPPORTED + ([c] + Format(rest, args)) == UNSUPPORTED + [c] + Format(rest, args);
    assert "%"[1..] == "" && UNSUPPORTED + "" == UNSUPPORTED;
  }

  lemma NumeralsStand()
    ensures Numeral(120, 10, false) == "120" && Numeral(0, 10, false) == "0"
    ensures Numeral(0xBEEF, 16, false) == "beef" && Numeral(0xBEEF, 16, true) == "BEEF"
  {
    assert Numeral(1, 10, false) == "1";
    assert Numeral(12, 10, false) == "12";
    assert Numeral(0xB, 16, false) == "b" && Numeral(0xB, 16, true) == "B";
    assert Numeral(0xBE, 16, false) == "be" && Numeral(0xBE, 16, true) == "BE";
    assert Numeral(0xBEE, 16, false) == "bee" && Numeral(0xBEE, 16, true) == "BEE";
  }

  // A format that ends in no lone % stays complete when another such follows it.
  lemma {:induction false} CompleteConcat(f: string, g: string)
    requires Complete(f) && Complete(g)
    ensures Complete(f + g)
    decreases |f|
  {
    if f == "" {
      assert f + g == g;
    } else {
      HeadOfConcat(f, g, []);
      CompleteConcat(f[Width(f)..], g);
      assert |f + g| >= |f| && (f + g == "%" ==> f == "%");
    }
  }

  lemma CompletePieces(c: char)
    ensures c != '%' ==> Complete([c])
    ensures Complete(['%', c])
  {
    if c != '%' {
      assert [c][1..] == "" && Complete([c]);
    }
    var fmt := ['%', c];
    assert fmt[2..] == "" && fmt[1..] == [c];
  }
}
