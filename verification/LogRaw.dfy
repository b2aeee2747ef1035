/**
 The raw log printer: a 32-byte buffer flushed whenever it is full, decimal and hexadecimal output
 from a digit array, and the loop over the format string, against the text of LogFormat.
 */
module LogRaw {
  import opened LogFormat
  import opened Words

  const PRINT_BUFF_SIZE: nat := 32
  const NUM_BUFF_SIZE: nat := 12

  // One call of stdio_output_string: the bytes handed over and the count the driver reports as sent,
  // zero if it refuses them.
  datatype Chunk = Chunk(data: string, reported: nat)

  function Text(sent: seq<Chunk>): string {
    if sent == [] then "" else Text(sent[..|sent| - 1]) + sent[|sent| - 1].data
  }

  // The number of characters the driver reported as sent.
  function Printed(sent: seq<Chunk>): nat {
    if sent == [] then 0 else Printed(sent[..|sent| - 1]) + sent[|sent| - 1].reported
  }

  // A driver does not report more than it was handed.
  predicate Honest(sent: seq<Chunk>) {
    forall i :: 0 <= i < |sent| ==> sent[i].reported <= |sent[i].data|
  }

  predicate AllFull(sent: seq<Chunk>) {
    forall i :: 0 <= i < |sent| ==> |sent[i].data| == PRINT_BUFF_SIZE
  }

  predicate AllSent(sent: seq<Chunk>) {
    forall i :: 0 <= i < |sent| ==> sent[i].reported == |sent[i].data|
  }

  function Pow(base: nat, e: nat): (r: nat)
    ensures base > 0 ==> r > 0
  {
    if e == 0 then 1 else base * Pow(base, e - 1)
  }

  function Reversed(s: string): string {
    if s == "" then "" else [s[|s| - 1]] + Reversed(s[..|s| - 1])
  }

  lemma TenDigitsSuffice()
    ensures Pow(10, 10) > 0xFFFF_FFFF && Pow(16, 8) > 0xFFFF_FFFF
  {
    assert Pow(10, 2) == 100;
    assert Pow(10, 4) == 10000;
    assert Pow(10, 6) == 1000000;
    assert Pow(10, 8) == 100000000;
    assert Pow(16, 2) == 256;
    assert Pow(16, 4) == 65536;
    assert Pow(16, 6) == 0x100_0000;
  }

  // One digit more at the low end of the array is one digit more at the high end of the text.
  lemma DigitMore(digits: string, n: nat, base: nat, upper: bool)
    requires 2 <= base <= 16 && n > 0
    ensures var more := digits + [DigitChar(n % base, upper)];
            Reversed(more) == [DigitChar(n % base, upper)] + Reversed(digits) &&
            Numeral(n, base, upper) ==
            (if n / base == 0 then "" else Numeral(n / base, base, upper)) + [DigitChar(n % base, upper)]
  {
    hide DigitChar;
    var more := digits + [DigitChar(n % base, upper)];
    assert more[..|more| - 1] == digits;
    if n < base {
      assert n / base == 0 && n % base == n;
      assert "" + [DigitChar(n, upper)] == [DigitChar(n, upper)];
    } else {
      assert n / base != 0;
    }
  }

  // struct formatted_buffer_t, with the calls to the driver in `sent`.
  class FormattedBuffer {
    var pos: nat
    const buf: array<char>
    var sent: seq<Chunk>

    ghost predicate Valid()
      reads this, buf
    {
      buf.Length == PRINT_BUFF_SIZE && pos < PRINT_BUFF_SIZE && AllFull(sent) && Honest(sent)
    }

    // Everything put so far: what was flushed, then what waits in the buffer.
    ghost function Put(): string
      reads this, buf
      requires Valid()
    {
      Text(sent) + buf[..pos]
    }

    constructor ()
      ensures Valid() && fresh(buf) && pos == 0 && sent == []
    {
      pos := 0;
      buf := new char[PRINT_BUFF_SIZE];
      sent := [];
    }

    // stdio_output_string: the driver may refuse, and otherwise reports how much it has sent.
    method Output(len: nat) returns (count: nat)
      requires len <= buf.Length
      modifies this`sent
      ensures |sent| == |old(sent)| + 1 && sent[..|sent| - 1] == old(sent)
      ensures sent[|sent| - 1].data == buf[..len]
      ensures count == sent[|sent| - 1].reported <= len
    {
      var accepted: bool := *;
      if accepted {
        count :| 0 <= count <= len;
      } else {
        count := 0;
      }
      sent := sent + [Chunk(buf[..len], count)];
    }

    method PutChar(c: char)
      requires Valid()
      modifies this, buf
      ensures Valid() && Put() == old(Put()) + [c]
    {
      ghost var before := Put();
      buf[pos] := c;
      pos := pos + 1;
      assert buf[..pos] == old(buf[..pos]) + [c];
      assert Text(sent) + buf[..pos] == before + [c];
      if pos >= PRINT_BUFF_SIZE {
        pos := 0;
        var _ := Output(PRINT_BUFF_SIZE);
        assert Put() == Text(sent);
      }
    }

    method StringOutput(str: CString) returns (count: nat)
      requires Valid()
      modifies this, buf
      ensures Valid() && Put() == old(Put()) + str && count == |str|
    {
      count := 0;
      ghost var before := Put();
      assert before + str[..0] == before;
      while count < |str|
        invariant Valid() && 0 <= count <= |str|
        invariant Put() == before + str[..count]
      {
        PutChar(str[count]);
        assert before + str[..count] + [str[count]] == before + str[..count + 1];
        count := count + 1;
      }
      assert str[..count] == str;
    }

    // The second loop of a number: the k digits of the array, the highest first.
    method DrainDigits(digits: array<char>, k0: nat) returns (count: nat)
      requires Valid() && k0 <= digits.Length && digits != buf
      modifies this, buf
      ensures Valid() && Put() == old(Put()) + Reversed(digits[..k0]) && count == k0
    {
      var k := k0;
      count := 0;
      ghost var target := Put() + Reversed(digits[..k0]);
      while k != 0
        invariant 0 <= k <= k0 && count + k == k0
        invariant Valid() && Put() + Reversed(digits[..k]) == target
      {
        k := k - 1;
        assert digits[..k + 1][..k] == digits[..k];
        assert Reversed(digits[..k + 1]) == [digits[k]] + Reversed(digits[..k]);
        ghost var sofar := Put();
        PutChar(digits[k]);
        assert sofar + ([digits[k]] + Reversed(digits[..k])) == Put() + Reversed(digits[..k]);
        count := count + 1;
      }
      assert Put() + Reversed(digits[..k]) == Put();
    }

    // _tfm_dec_num_output: 'd' prints the sign and the magnitude, 'u' the word as it is.
    method DecNumOutput(num: Word, sign: char) returns (count: nat)
      requires Valid() && sign in {'d', 'u'}
      modifies this, buf
      ensures Valid()
      ensures Put() == old(Put()) + if sign == 'd' then SignedNumeral(ToInt(num)) else Numeral(num, 10, false)
      ensures count == |Put()| - |old(Put())|
    {
      hide Numeral;
      var number := num;
      count := 0;
      ghost var before := Put();
      if sign == 'd' && num >= HALF {
        PutChar('-');
        count := count + 1;
        number := WORD - num;
        assert before + "-" + Numeral(number, 10, false) == before + ("-" + Numeral(number, 10, false));
      }
      var digits, k := FillDigits(number, 10, false);
      var more := DrainDigits(digits, k);
      ReversedLength(digits[..k]);
      count := count + more;
    }

    method HexNumOutput(num: Word, upper: bool) returns (count: nat)
      requires Valid()
      modifies this, buf
      ensures Valid() && Put() == old(Put()) + Numeral(num, 16, upper)
      ensures count == |Put()| - |old(Put())|
    {
      hide Numeral;
      var digits, k := FillDigits(num, 16, upper);
      count := DrainDigits(digits, k);
      ReversedLength(digits[..k]);
    }

    // The cases of the switch that read an argument.
    method Conversion(c: char, a: Arg) returns (count: nat)
      requires Valid() && TakesArg(c)
      requires c == 's' <==> a.Str?
      modifies this, buf
      ensures Valid() && Put() == old(Put()) + Converted(c, a) && count == |Converted(c, a)|
    {
      hide Numeral, SignedNumeral;
      match c
      case 'd' => count := DecNumOutput(a.word, 'd');
      case 'i' => count := DecNumOutput(a.word, 'd');
      case 'u' => count := DecNumOutput(a.word, 'u');
      case 'x' => count := HexNumOutput(a.word, false);
      case 'X' => count := HexNumOutput(a.word, true);
      case 'p' =>
        ghost var before := Put();
        count := StringOutput("0x");
        var more := HexNumOutput(a.word, false);
        count := count + more;
        assert Put() == before + ("0x" + Numeral(a.word, 16, false));
      case 's' => count := StringOutput(a.text);
      case _ =>
        PutChar((a.word % 256) as char);
        count := 1;
    }

    // The end of a call: what waits in the buffer is handed to the driver.
    method Finish() returns (count: nat)
      requires Valid()
      modifies this`sent
      ensures Text(sent) == old(Put()) && Honest(sent)
      ensures |sent| == (|old(Put())| + 31) / 32 && AllFull(sent[..|old(Put())| / 32])
      ensures count == if |old(Put())| % 32 != 0 then sent[|sent| - 1].reported else 0
    {
      FullText(sent);
      count := 0;
      ghost var full := sent;
      if pos != 0 {
        count := Output(pos);
        assert sent[..|full|] == full;
      } else {
        assert Put() == Text(sent) && sent[..|sent|] == sent;
      }
    }

    // One turn of the loop over the format: the switch on what follows a %, or an ordinary character.
    method Piece(fmt: CString, args: seq<Arg>, i: nat, a: nat) returns (i': nat, a': nat, count: nat)
      requires Valid() && i < |fmt| && a <= |args| && HeadMatches(fmt[i..], args[a..])
      modifies this, buf
      ensures Valid() && i' == i + Width(fmt[i..]) && a' == a + Taken(fmt[i..])
      ensures Put() == old(Put()) + Head(fmt[i..], args[a..]) && count == |Head(fmt[i..], args[a..])|
    {
      hide Converted;
      i', a', count := i, a, 1;
      ghost var left, later := fmt[i..], args[a..];
      if fmt[i'] == '%' {
        i' := i' + 1;
        if i' < |fmt| && fmt[i'] == '%' {
          assert left[1] == '%';
          PutChar('%');
        } else if i' < |fmt| && TakesArg(fmt[i']) {
          assert left[1] == fmt[i'] && later[0] == args[a];
          count := Conversion(fmt[i'], args[a]);
          a' := a' + 1;
        } else {
          assert i' < |fmt| ==> left[1] == fmt[i'];
          count := StringOutput(UNSUPPORTED);
          return;
        }
        i' := i' + 1;
      } else {
        PutChar(fmt[i']);
        i' := i' + 1;
      }
    }
  }

  lemma {:induction false} ReversedLength(s: string)
    ensures |Reversed(s)| == |s|
  {
    if s != "" {
      ReversedLength(s[..|s| - 1]);
    }
  }

  lemma FirstDigit(num: Word, base: nat, upper: bool)
    requires base in {10, 16}
    ensures Numeral(num, base, upper) ==
            Pending(num / base, base, upper) + Reversed([DigitChar(num % base, upper)])
  {
    hide DigitChar;
    var one := [DigitChar(num % base, upper)];
    assert one[..0] == "" && Reversed(one) == one + "" == one;
    if num == 0 {
      assert "" + one == one;
    } else {
      DigitMore("", num, base, upper);
    }
  }

  lemma QuotientBelow(number: nat, base: nat, places: nat)
    requires base in {10, 16} && places > 0 && number < Pow(base, places)
    ensures number / base < Pow(base, places - 1) && (number > 0 ==> number / base < number)
  {
    var p := Pow(base, places - 1);
    if base == 10 {
      assert number < 10 * p;
    } else {
      assert number < 16 * p;
    }
  }

  // What is still to be turned into digits.
  function Pending(number: nat, base: nat, upper: bool): string
    requires 2 <= base <= 16
  {
    if number == 0 then "" else Numeral(number, base, upper)
  }

  lemma DigitStep(digits: string, number: nat, base: nat, upper: bool, text: string)
    requires 2 <= base <= 16 && number > 0
    requires text == Pending(number, base, upper) + Reversed(digits)
    ensures text == Pending(number / base, base, upper) + Reversed(digits + [DigitChar(number % base, upper)])
  {
    hide DigitChar;
    DigitMore(digits, number, base, upper);
    var d := [DigitChar(number % base, upper)];
    assert Pending(number / base, base, upper) + d + Reversed(digits) ==
           Pending(number / base, base, upper) + (d + Reversed(digits));
  }

  // The first loop of a number: its digits into the array, the lowest first. A 32-bit number takes
  // at most ten of the twelve places.
  method FillDigits(num: Word, base: nat, upper: bool) returns (digits: array<char>, k: nat)
    requires base in {10, 16}
    ensures fresh(digits) && digits.Length == NUM_BUFF_SIZE && k <= 10
    ensures Reversed(digits[..k]) == Numeral(num, base, upper)
  {
    hide DigitChar, Reversed, Numeral, Pending;
    digits := new char[NUM_BUFF_SIZE];
    var number: nat := num;
    ghost var text := Numeral(num, base, upper);
    ghost var max := if base == 10 then 10 else 8;
    TenDigitsSuffice();
    FirstDigit(num, base, upper);
    hide Pow;
    QuotientBelow(number, base, max);
    digits[0] := DigitChar(number % base, upper);
    number := number / base;
    k := 1;
    assert digits[..1] == [DigitChar(num % base, upper)];
    while number != 0
      invariant 1 <= k <= max && digits.Length == NUM_BUFF_SIZE
      invariant number < Pow(base, max - k)
      invariant text == Pending(number, base, upper) + Reversed(digits[..k])
      decreases number
    {
      NoPlaceLeft(number, base, max - k);
      QuotientBelow(number, base, max - k);
      ghost var was := digits[..k];
      DigitStep(was, number, base, upper, text);
      digits[k] := DigitChar(number % base, upper);
      assert digits[..k + 1] == was + [digits[k]];
      number := number / base;
      k := k + 1;
    }
    assert text == Reversed(digits[..k]) by {
      NothingPending(base, upper, Reversed(digits[..k]));
    }
  }

  lemma NoPlaceLeft(number: nat, base: nat, places: nat)
    requires 0 < number < Pow(base, places)
    ensures places > 0
  {
  }

  lemma NothingPending(base: nat, upper: bool, rest: string)
    requires 2 <= base <= 16
    ensures Pending(0, base, upper) + rest == rest
  {
  }

  lemma {:induction false} FullText(sent: seq<Chunk>)
    requires AllFull(sent)
    ensures |Text(sent)| == PRINT_BUFF_SIZE * |sent|
  {
    if sent != [] {
      FullText(sent[..|sent| - 1]);
    }
  }

  // A loop iteration prints the head of what is left of the format.
  lemma HeadPrinted(before: string, after: string, fmt: string, args: seq<Arg>, whole: string)
    requires fmt != "" && Matches(fmt, args) && before + Format(fmt, args) == whole
    requires after == before + Head(fmt, args)
    ensures Matches(fmt[Width(fmt)..], args[Taken(fmt)..])
    ensures after + Format(fmt[Width(fmt)..], args[Taken(fmt)..]) == whole
  {
    hide Head;
    var rest := Format(fmt[Width(fmt)..], args[Taken(fmt)..]);
    assert before + (Head(fmt, args) + rest) == before + Head(fmt, args) + rest;
  }

  lemma HeadReady(fmt: string, args: seq<Arg>, i: nat, a: nat)
    requires i < |fmt| && a <= |args| && Matches(fmt[i..], args[a..])
    ensures HeadMatches(fmt[i..], args[a..])
    ensures i < i + Width(fmt[i..]) <= |fmt| && a + Taken(fmt[i..]) <= |args|
    ensures fmt[i..][Width(fmt[i..])..] == fmt[i + Width(fmt[i..])..]
    ensures args[a..][Taken(fmt[i..])..] == args[a + Taken(fmt[i..])..]
  {
  }

  lemma NothingLeft(args: seq<Arg>, text: string)
    ensures Matches("", args) && Format("", args) == "" && text + Format("", args) == text
  {
  }

  // _tfm_log_vprintf: the flushed pieces make up the formatted text; every piece but a last partial
  // one is 32 characters; the answer is the length of the text plus what the final flush reports.
  method Vprintf(fmt: CString, args: seq<Arg>) returns (count: nat, sent: seq<Chunk>)
    requires Matches(fmt, args)
    ensures Text(sent) == Format(fmt, args)
    ensures |sent| == (|Format(fmt, args)| + 31) / 32
    ensures AllFull(sent[..|Format(fmt, args)| / 32])
    ensures Honest(sent)
    ensures count == |Format(fmt, args)| +
                     if |Format(fmt, args)| % 32 != 0 then sent[|sent| - 1].reported else 0
  {
    hide Format, Matches, Head, HeadMatches, Width, Taken;
    var out := new FormattedBuffer();
    count := 0;
    var i: nat, a: nat := 0, 0;
    ghost var whole := Format(fmt, args);
    assert fmt[0..] == fmt && args[0..] == args && out.Put() + whole == whole;
    while i < |fmt|
      invariant 0 <= i <= |fmt| && 0 <= a <= |args|
      invariant out.Valid() && fresh(out) && fresh(out.buf) && count == |out.Put()|
      invariant Matches(fmt[i..], args[a..]) && out.Put() + Format(fmt[i..], args[a..]) == whole
      decreases |fmt| - i
    {
      ghost var left, later, before := fmt[i..], args[a..], out.Put();
      HeadReady(fmt, args, i, a);
      var more;
      i, a, more := out.Piece(fmt, args, i, a);
      count := count + more;
      HeadPrinted(before, out.Put(), left, later, whole);
    }
    assert fmt[i..] == "";
    NothingLeft(args[a..], out.Put());
    var last := out.Finish();
    count := count + last;
    sent := out.sent;
  }

  // The documented answer, the number of characters printed, is given exactly when the driver sent
  // every piece whole and the text fills the buffer a whole number of times.
  lemma CountIsPrintedExactly(text: string, sent: seq<Chunk>, count: nat)
    requires Text(sent) == text && |sent| == (|text| + 31) / 32 && AllFull(sent[..|text| / 32])
    requires Honest(sent) && count == |text| + if |text| % 32 != 0 then sent[|sent| - 1].reported else 0
    ensures count == Printed(sent) <==> AllSent(sent) && |text| % 32 == 0
  {
    PrintedAtMost(sent);
    if |text| % 32 == 0 {
      assert |text| / 32 == |sent|;
      assert sent[..|sent|] == sent;
    } else if count == Printed(sent) {
      assert sent[|sent| - 1].reported == 0;
      FullText(sent[..|sent| - 1]);
      PrintedAtMost(sent[..|sent| - 1]);
    }
  }

  lemma {:induction false} PrintedAtMost(sent: seq<Chunk>)
    requires Honest(sent)
    ensures Printed(sent) <= |Text(sent)|
    ensures AllSent(sent) ==> Printed(sent) == |Text(sent)|
    ensures Printed(sent) == |Text(sent)| && AllFull(sent) ==> AllSent(sent)
  {
    if sent != [] {
      PrintedAtMost(sent[..|sent| - 1]);
    }
  }
}
