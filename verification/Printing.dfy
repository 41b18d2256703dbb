/**
  Numbers in text: the kernel's formatter (mk/core/core_printf.c) and the network server's
  dotted quads (mu/servers/netserver/util.c).
 */
module Numerals {
  import opened Arithmetic

  /** The formatter's static set. */
  const SET: string := "0123456789abcdef"

  predicate Base(b: nat) {
    2 <= b <= 16
  }

  function DigitValue(c: char): nat {
    if '0' <= c <= '9' then (c - '0') as nat
    else if 'a' <= c <= 'f' then (c - 'a') as nat + 10
    else 0
  }

  /** The digits of a number, the highest first. */
  function Digits(v: nat, b: nat): string
    requires Base(b)
  {
    if v < b then [SET[v]] else Digits(v / b, b) + [SET[v % b]]
  }

  /** The positional value of digits that follow others worth `high`. */
  function Value(text: string, b: nat, high: nat): nat {
    if text == "" then high else Value(text[1..], b, high * b + DigitValue(text[0]))
  }

  lemma SetValue(d: nat)
    requires d < 16
    ensures DigitValue(SET[d]) == d && (d < 10 ==> '0' <= SET[d] <= '9') && (d > 0 ==> SET[d] != '0')
  {
    assert SET == ['0', '1', '2', '3', '4', '5', '6', '7', '8', '9', 'a', 'b', 'c', 'd', 'e', 'f'];
  }

  lemma {:induction false} ValueAppend(text: string, c: char, b: nat, high: nat)
    ensures Value(text + [c], b, high) == Value(text, b, high) * b + DigitValue(c)
  {
    if text == "" {
      assert text + [c] == [c];
    } else {
      assert (text + [c])[1..] == text[1..] + [c];
      ValueAppend(text[1..], c, b, high * b + DigitValue(text[0]));
    }
  }

  lemma DivMod(v: nat, b: nat)
    requires b > 0
    ensures v / b * b + v % b == v
  {
  }

  lemma QuotientSmaller(v: nat, b: nat)
    requires 2 <= b <= v
    ensures 0 <= v / b < v && 0 <= v % b < b
  {
    var q := v / b;
    DivMod(v, b);
    TwiceAtMost(q, b);
  }

  lemma TwiceAtMost(q: nat, b: nat)
    requires 2 <= b
    ensures 2 * q <= q * b
  {
    assert q * b == q * (b - 2) + 2 * q;
  }

  lemma DigitsValueStep(q: nat, r: nat, b: nat)
    requires Base(b) && r < b && Value(Digits(q, b), b, 0) == q
    ensures Value(Digits(q, b) + [SET[r]], b, 0) == q * b + r
  {
    ValueAppend(Digits(q, b), SET[r], b, 0);
    SetValue(r);
  }

  /** The digits' positional value is the number. */
  lemma {:induction false} DigitsValue(v: nat, b: nat)
    requires Base(b)
    ensures Value(Digits(v, b), b, 0) == v
  {
    if v < b {
      SetValue(v);
    } else {
      QuotientSmaller(v, b);
      var q, r := v / b, v % b;
      DigitsValue(q, b);
      DigitsValueStep(q, r, b);
      DivMod(v, b);
    }
  }

  /** No leading zeros: only zero itself starts with one. */
  lemma {:induction false} NoLeadingZero(v: nat, b: nat)
    requires Base(b)
    ensures |Digits(v, b)| > 0 && (Digits(v, b)[0] == '0' <==> v == 0)
  {
    if v < b {
      SetValue(v);
    } else {
      NoLeadingZero(v / b, b);
      QuotientPositive(v, b);
    }
  }

  lemma QuotientPositive(v: nat, b: nat)
    requires 0 < b <= v
    ensures v / b > 0
  {
  }

  /** Different numbers have different digits. */
  lemma DigitsInjective(v: nat, w: nat, b: nat)
    requires Base(b) && Digits(v, b) == Digits(w, b)
    ensures v == w
  {
    DigitsValue(v, b);
    DigitsValue(w, b);
  }

  lemma HalfBelow(v: nat, b: nat, k: nat)
    requires Base(b) && v < 2 * k
    ensures v / b < k || k == 0
  {
    assert v / b <= v / 2;
  }

  /** A number of k bits has at most k digits in any base. */
  lemma {:induction false} DigitsFit(v: nat, b: nat, k: nat)
    requires Base(b) && k > 0 && v < Pow2(k)
    ensures |Digits(v, b)| <= k
  {
    if v >= b {
      HalfBelow(v, b, Pow2(k - 1));
      QuotientPositive(v, b);
      DigitsFit(v / b, b, k - 1);
    }
  }

  lemma TwoSixtyFour()
    ensures Pow2(64) == 0x1_0000_0000_0000_0000
  {
    assert Pow2(8) == 256;
    assert Pow2(16) == 0x1_0000 by { TwoAdd(8, 8); }
    assert Pow2(32) == 0x1_0000_0000 by { TwoAdd(16, 16); }
    TwoAdd(32, 32);
  }

  lemma {:induction false} TwoAdd(j: nat, k: nat)
    ensures Pow2(j + k) == Pow2(j) * Pow2(k)
  {
    if j > 0 {
      TwoAdd(j - 1, k);
    }
  }
}

/** kfformat, kfvprintf for text, %% and %u, and the string output of vsnprintf. */
module Printing {
  import opened Machine
  import opened Arithmetic
  import opened Numerals

  /** A 64-bit value as kfformat prints it: with a sign, as a number in two's complement. */
  function Numeral(v: nat, b: nat, sign: bool): string
    requires Base(b) && v < WORD
  {
    if sign && v >= WORD / 2 then "-" + Digits(WORD - v, b) else Digits(v, b)
  }

  /** The number that a text with an optional minus sign stands for. */
  function SignedValue(text: string, b: nat): int {
    if text != "" && text[0] == '-' then -(Value(text[1..], b, 0) as int) else Value(text, b, 0)
  }

  /** A 64-bit word prints as the number it stands for, in two's complement if it is signed. */
  lemma NumeralValue(v: nat, b: nat, sign: bool)
    requires Base(b) && v < WORD
    ensures SignedValue(Numeral(v, b, sign), b) == if sign && v >= 0x8000_0000_0000_0000 then v - WORD else v
  {
    if sign && v >= 0x8000_0000_0000_0000 {
      DigitsValue(WORD - v, b);
      assert ("-" + Digits(WORD - v, b))[1..] == Digits(WORD - v, b);
    } else {
      DigitsValue(v, b);
      FirstDigit(v, b);
    }
  }

  lemma {:induction false} FirstDigit(v: nat, b: nat)
    requires Base(b)
    ensures Digits(v, b) != "" && Digits(v, b)[0] != '-'
  {
    if v < b {
      NotMinus(v);
    } else {
      QuotientSmaller(v, b);
      FirstDigit(v / b, b);
    }
  }

  lemma NotMinus(d: nat)
    requires d < 16
    ensures SET[d] != '-'
  {
    assert SET == ['0', '1', '2', '3', '4', '5', '6', '7', '8', '9', 'a', 'b', 'c', 'd', 'e', 'f'];
  }

  /** What a format makes of its arguments. */
  function Render(format: string, args: seq<nat>): string
    requires Plain(format, |args|)
  {
    if format == "" then ""
    else if format[0] != '%' then [format[0]] + Render(format[1..], args)
    else if format[1] == '%' then "%" + Render(format[2..], args)
    else Digits(args[0] % UNSIGNED, 10) + Render(format[2..], args[1..])
  }

  /** Every directive is %% or %u, and there is an argument for each %u. */
  predicate Plain(format: string, n: nat) {
    if format == "" then true
    else if format[0] != '%' then Plain(format[1..], n)
    else if |format| < 2 then false
    else if format[1] == '%' then Plain(format[2..], n)
    else format[1] == 'u' && n > 0 && Plain(format[2..], n - 1)
  }

  /** How a character is written in a format. */
  function Escape(c: char): string {
    if c == '%' then "%%" else [c]
  }

  /** A text with its percent signs doubled. */
  function Escaped(text: string): string {
    if text == "" then "" else Escape(text[0]) + Escaped(text[1..])
  }

  lemma RenderChar(c: char, rest: string, args: seq<nat>)
    requires Plain(rest, |args|)
    ensures Plain(Escape(c) + rest, |args|) && Render(Escape(c) + rest, args) == [c] + Render(rest, args)
  {
    var f := Escape(c) + rest;
    if c == '%' {
      assert f[0] == '%' && f[1] == '%' && f[2..] == rest;
    } else {
      assert f[0] == c && f[1..] == rest;
    }
  }

  /** A text comes out of a format as it is, its percent signs doubled; what follows is rendered after it. */
  lemma {:induction false} RenderText(text: string, rest: string, args: seq<nat>)
    requires Plain(rest, |args|)
    ensures Plain(Escaped(text) + rest, |args|)
    ensures Render(Escaped(text) + rest, args) == text + Render(rest, args)
  {
    if text == "" {
      assert Escaped(text) + rest == rest;
    } else {
      var c, tail := text[0], text[1..];
      RenderText(tail, rest, args);
      RenderChar(c, Escaped(tail) + rest, args);
      Associative(Escape(c), Escaped(tail), rest);
      Associative([c], tail, Render(rest, args));
      assert text == [c] + tail;
    }
  }

  /** A number comes out as the digits of its low 32 bits. */
  lemma RenderNumber(rest: string, args: seq<nat>)
    requires args != [] && Plain(rest, |args| - 1)
    ensures Plain("%u" + rest, |args|)
    ensures Render("%u" + rest, args) == Digits(args[0] % 0x1_0000_0000, 10) + Render(rest, args[1..])
  {
    var f := "%u" + rest;
    assert f[0] == '%' && f[1] == 'u' && f[2..] == rest;
  }

  /** struct sntring, with the text put so far as far as it fits. */
  class Sink {
    const buf: array<char>
    const size: nat
    var p: nat
    var avail: nat
    ghost var wanted: string

    ghost predicate Valid()
      reads this, buf
    {
      && p + avail == size <= buf.Length
      && p == Least(|wanted|, size)
      && buf[..p] == wanted[..p]
    }

    constructor (buf: array<char>, size: nat)
      requires size <= buf.Length
      ensures Valid() && this.buf == buf && this.size == size && wanted == ""
    {
      this.buf, this.size, p, avail, wanted := buf, size, 0, size, "";
    }

    /** snputc: a character that does not fit is dropped. */
    method PutChar(c: char)
      requires Valid()
      modifies this, buf
      ensures Valid() && wanted == old(wanted) + [c]
      ensures buf[size..] == old(buf[size..])
    {
      wanted := wanted + [c];
      if avail == 0 {
        return;
      }
      avail := avail - 1;
      buf[p] := c;
      p := p + 1;
    }

    /** snputs */
    method PutString(s: string)
      requires Valid()
      modifies this, buf
      ensures Valid() && wanted == old(wanted) + s
      ensures buf[size..] == old(buf[size..])
    {
      var i := 0;
      while i < |s|
        invariant i <= |s| && Valid() && wanted == old(wanted) + s[..i]
        invariant buf[size..] == old(buf[size..])
      {
        if avail == 0 {
          wanted := old(wanted) + s;
          break;
        }
        avail := avail - 1;
        buf[p] := s[i];
        p := p + 1;
        wanted := wanted + [s[i]];
        i := i + 1;
      }
      assert i == |s| ==> s[..i] == s;
    }

    /** The loop that puts the digits, from the highest down. */
    method Drain(str: array<char>, n: nat, ghost all: string)
      requires Valid() && str != buf && n == |all| <= str.Length
      requires forall j :: 0 <= j < n ==> str[j] == all[n - 1 - j]
      modifies this, buf
      ensures Valid() && wanted == old(wanted) + all
      ensures buf[size..] == old(buf[size..])
    {
      var i := n;
      while i != 0
        invariant 0 <= i <= n
        invariant forall j :: 0 <= j < n ==> str[j] == all[n - 1 - j]
        invariant Valid() && wanted == old(wanted) + all[..n - i]
        invariant buf[size..] == old(buf[size..])
        decreases i
      {
        i := i - 1;
        assert all[..n - i] == all[..n - i - 1] + [all[n - i - 1]];
        PutChar(str[i]);
      }
      assert all[..n] == all;
    }

    /** kfformat: fills a buffer with digits from the lowest up, and puts them from the highest down. */
    method Format(v: nat, b: nat, sign: bool)
      requires Valid() && Base(b) && v < WORD
      modifies this, buf
      ensures Valid() && wanted == old(wanted) + Numeral(v, b, sign)
      ensures buf[size..] == old(buf[size..])
    {
      if sign && v >= WORD / 2 {
        Associative(wanted, "-", Digits(WORD - v, b));
        PutChar('-');
        Complement(v);
        PutDigits((WORD - 1 - v + 1) % WORD, b);
      } else {
        PutDigits(v, b);
      }
    }

    method PutDigits(v: nat, b: nat)
      requires Valid() && Base(b) && v < WORD
      modifies this, buf
      ensures Valid() && wanted == old(wanted) + Digits(v, b)
      ensures buf[size..] == old(buf[size..])
    {
      var str, n := Fill(v, b);
      Drain(str, n, Digits(v, b));
    }

    /** The end of vsnprintf: a terminator after the text, or in place of its last character that fits. */
    method Finish()
      requires Valid() && size > 0
      modifies buf
      ensures var n := Least(|wanted|, size - 1);
              buf[..n] == wanted[..n] && buf[n] == '\0'
      ensures buf[size..] == old(buf[size..])
    {
      ghost var text := buf[..p];
      if avail != 0 {
        buf[p] := '\0';
        assert buf[..p] == text;
      } else {
        buf[size - 1] := '\0';
        assert buf[..size - 1] == text[..size - 1];
      }
    }

    /** kfvprintf for formats of text, %% and %u. */
    method Print(format: string, args: seq<nat>)
      requires Valid() && Plain(format, |args|)
      modifies this, buf
      ensures Valid() && wanted == old(wanted) + Render(format, args)
      ensures buf[size..] == old(buf[size..])
    {
      var rest, left := format, args;
      assert old(wanted) + "" == old(wanted);
      while rest != ""
        invariant Plain(rest, |left|) && Valid()
        invariant wanted + Render(rest, left) == old(wanted) + Render(format, args)
        invariant buf[size..] == old(buf[size..])
        decreases |rest|
      {
        if rest[0] != '%' {
          rest := PrintText(rest, left);
          if rest == "" {
            break;
          }
        }
        ghost var what := Render(rest, left);
        ghost var now := wanted;
        left := PrintDirective(rest, left);
        rest := rest[2..];
        assert wanted + Render(rest, left) == now + what;
      }
    }

    /** Text up to the next directive goes out as it is. */
    method PrintText(rest: string, ghost args: seq<nat>) returns (after: string)
      requires Valid() && rest != "" && rest[0] != '%' && Plain(rest, |args|)
      modifies this, buf
      ensures Valid() && Plain(after, |args|) && |after| < |rest| && (after != "" ==> after[0] == '%')
      ensures wanted + Render(after, args) == old(wanted) + Render(rest, args)
      ensures buf[size..] == old(buf[size..])
    {
      var n := TextLength(rest);
      TextRendered(rest, n, args);
      Associative(wanted, rest[..n], Render(rest[n..], args));
      PutString(rest[..n]);
      after := rest[n..];
    }

    /** The switch on a directive. */
    method PrintDirective(rest: string, args: seq<nat>) returns (left: seq<nat>)
      requires Valid() && rest != "" && rest[0] == '%' && Plain(rest, |args|)
      modifies this, buf
      ensures Valid() && Plain(rest[2..], |left|)
      ensures wanted + Render(rest[2..], left) == old(wanted) + Render(rest, args)
      ensures buf[size..] == old(buf[size..])
    {
      if rest[1] == '%' {
        Associative(wanted, "%", Render(rest[2..], args));
        PutChar('%');
        left := args;
      } else {
        Associative(wanted, Digits(args[0] % UNSIGNED, 10), Render(rest[2..], args[1..]));
        Format(args[0] % UNSIGNED, 10, false);
        left := args[1..];
      }
    }
  }

  /** strchr from the second character on: the text up to the next directive. */
  function TextLength(s: string): (n: nat)
    requires s != "" && s[0] != '%'
    ensures 0 < n <= |s| && (forall i :: 0 <= i < n ==> s[i] != '%') && (n < |s| ==> s[n] == '%')
  {
    if |s| == 1 || s[1] == '%' then 1 else 1 + TextLength(s[1..])
  }

  /** Inverting the bits and adding one negates a number in 64 bits. */
  lemma Complement(v: nat)
    requires WORD / 2 <= v < WORD
    ensures (WORD - 1 - v + 1) % WORD == WORD - v
  {
  }

  lemma Associative(a: string, b: string, c: string)
    ensures a + (b + c) == a + b + c
  {
  }

  /** Text renders as itself. */
  lemma {:induction false} TextRendered(s: string, n: nat, args: seq<nat>)
    requires n <= |s| && (forall i :: 0 <= i < n ==> s[i] != '%') && Plain(s, |args|)
    ensures Plain(s[n..], |args|) && Render(s, args) == s[..n] + Render(s[n..], args)
  {
    if n == 0 {
      assert s[0..] == s;
    } else {
      TextRendered(s[1..], n - 1, args);
      assert s[1..][n - 1..] == s[n..];
      var t, rest := s[1..][..n - 1], Render(s[n..], args);
      Associative([s[0]], t, rest);
      assert s[..n] == [s[0]] + t;
    }
  }

  /** vsnprintf: the text, cut to one less than the size, and a terminator. */
  method PrintString(buf: array<char>, size: nat, format: string, args: seq<nat>)
    requires 0 < size <= buf.Length && Plain(format, |args|)
    modifies buf
    ensures var text := Render(format, args);
            var n := Least(|text|, size - 1);
            buf[..n] == text[..n] && buf[n] == '\0'
    ensures buf[size..] == old(buf[size..])
  {
    var sink := new Sink(buf, size);
    sink.Print(format, args);
    assert sink.wanted == Render(format, args);
    sink.Finish();
  }

  /** The loop that fills kfformat's buffer of one character a bit. */
  method Fill(v: nat, b: nat) returns (str: array<char>, n: nat)
    requires Base(b) && v < WORD
    ensures fresh(str) && str.Length == 64 && n == |Digits(v, b)| <= 64
    ensures forall j :: 0 <= j < n ==> str[j] == Digits(v, b)[n - 1 - j]
  {
    ghost var all := Digits(v, b);
    DigitsFitWord(v, b);
    str := new char[64];
    n := 0;
    var val: nat := v;
    var more := true;
    while more
      invariant n <= |all| && (more <==> n < |all|)
      invariant more ==> all[..|all| - n] == Digits(val, b)
      invariant forall j :: 0 <= j < n ==> str[j] == all[|all| - 1 - j]
      decreases |all| - n
    {
      DigitsLast(val, b);
      assert val / b >= 0;
      ghost var now := Digits(val, b);
      assert now[|now| - 1] == all[|all| - 1 - n];
      assert now[..|now| - 1] == all[..|all| - 1 - n];
      str[n] := SET[val % b];
      n := n + 1;
      val := val / b;
      more := val != 0;
    }
  }

  lemma DigitsFitWord(v: nat, b: nat)
    requires Base(b) && v < WORD
    ensures |Digits(v, b)| <= 64
  {
    TwoSixtyFour();
    DigitsFit(v, b, 64);
  }

  /** The last digit is the remainder, and the others are the digits of the quotient. */
  lemma DigitsLast(v: nat, b: nat)
    requires Base(b)
    ensures v / b >= 0
    ensures var d := Digits(v, b);
            && |d| > 0 && d[|d| - 1] == SET[v % b]
            && (v / b == 0 ==> |d| == 1) && (v / b != 0 ==> |d| > 1 && d[..|d| - 1] == Digits(v / b, b))
  {
    if v < b {
      SmallQuotient(v, b);
    } else {
      QuotientPositive(v, b);
      NoLeadingZero(v / b, b);
    }
  }

  lemma SmallQuotient(v: nat, b: nat)
    requires v < b
    ensures v / b == 0 && v % b == v
  {
  }
}

/** Dotted quads: format_ip and parse_ip. */
module DottedQuad {
  import Optional
  import opened Machine
  import opened Arithmetic
  import opened Numerals
  import opened Printing

  type Address = a: nat | a < UNSIGNED

  /** The byte that `n` bytes stand below. */
  function Byte(ip: Address, n: nat): nat
    requires n < 4
  {
    match n case 0 => ip % 0x100 case 1 => ip / 0x100 % 0x100 case 2 => ip / 0x1_0000 % 0x100 case _ => ip / 0x100_0000
  }

  /** The address with that byte replaced: the old bits masked away and the new ones put in. */
  function SetByte(ip: Address, n: nat, v: nat): Address
    requires n < 4 && v < 0x100
  {
    ByteBounds(ip);
    match n
    case 0 => ip - Byte(ip, 0) + v
    case 1 => ip - Byte(ip, 1) * 0x100 + v * 0x100
    case 2 => ip - Byte(ip, 2) * 0x1_0000 + v * 0x1_0000
    case _ => ip - Byte(ip, 3) * 0x100_0000 + v * 0x100_0000
  }

  /** A byte in its place is part of the address, and the largest byte there still fits. */
  lemma ByteBounds(ip: Address)
    ensures Byte(ip, 0) <= ip && ip - Byte(ip, 0) + 0xff < UNSIGNED
    ensures Byte(ip, 1) * 0x100 <= ip && ip - Byte(ip, 1) * 0x100 + 0xff00 < UNSIGNED
    ensures Byte(ip, 2) * 0x1_0000 <= ip && ip - Byte(ip, 2) * 0x1_0000 + 0xff_0000 < UNSIGNED
    ensures Byte(ip, 3) * 0x100_0000 <= ip && ip - Byte(ip, 3) * 0x100_0000 + 0xff00_0000 < UNSIGNED
  {
    var n1 := ip / 0x100;
    var n2 := ip / 0x1_0000;
    var n3 := ip / 0x100_0000;
    Step(ip, 0x100, n1);
    Step(ip, 0x1_0000, n2);
    Step(ip, 0x100_0000, n3);
    Low(n1);
    Low(n2);
  }

  lemma Step(ip: nat, unit: nat, n: nat)
    requires unit > 0 && n == ip / unit
    ensures n * unit <= ip < n * unit + unit
  {
  }

  lemma Low(n: nat)
    ensures n % 0x100 <= n && n % 0x100 < 0x100 && n == n / 0x100 * 0x100 + n % 0x100
  {
  }

  function Quad(ip: Address): string {
    Digits(Byte(ip, 3), 10) + "." + Digits(Byte(ip, 2), 10) + "." + Digits(Byte(ip, 1), 10) + "." + Digits(Byte(ip, 0), 10)
  }

  const FORMAT: string := "%u.%u.%u.%u"

  function Arguments(ip: Address): seq<nat> {
    [Byte(ip, 3), Byte(ip, 2), Byte(ip, 1), Byte(ip, 0)]
  }

  /** The number at the start of a text, up to a dot or the end; None where parse_ip refuses it. */
  function Octet(s: string, v: nat): (r: Optional.Option<(nat, string)>)
    requires v < 0x100
    ensures r.Some? ==> r.value.0 < 0x100 && |r.value.1| <= |s| && (r.value.1 != "" ==> r.value.1[0] == '.')
  {
    if s == "" || s[0] == '.' then Optional.Some((v, s))
    else if s[0] < '0' || s[0] > '9' then Optional.None
    else
      var d := DigitValue(s[0]);
      if 256 - v * 10 <= d then Optional.None else Octet(s[1..], v * 10 + d)
  }

  /** parse_ip from one of its rounds on: whether it succeeds, and what it leaves in the address. */
  function ParseFrom(s: string, ip: Address, octet: nat): (bool, Address)
    requires octet <= 4
    decreases octet
  {
    if octet == 0 then (s == "", ip)
    else
      match Octet(s, 0)
      case None => (false, ip)
      case Some((v, rest)) =>
        var next := SetByte(ip, octet - 1, v);
        if rest == "" then (true, next) else ParseFrom(rest[1..], next, octet - 1)
  }

  /** parse_ip */
  method Parse(text: string, old_ip: Address) returns (ok: bool, ip: Address)
    ensures (ok, ip) == ParseFrom(text, old_ip, 4)
  {
    ip := old_ip;
    var s, octet := text, 4;
    while octet != 0
      invariant 0 <= octet <= 4
      invariant ParseFrom(s, ip, octet) == ParseFrom(text, old_ip, 4)
      decreases octet
    {
      var v: nat := 0;
      ghost var from := s;
      while s != "" && s[0] != '.'
        invariant v < 0x100 && Octet(s, v) == Octet(from, 0)
        decreases |s|
      {
        if s[0] < '0' || s[0] > '9' {
          return false, ip;
        }
        var d := DigitValue(s[0]);
        if 256 - v * 10 <= d {
          return false, ip;
        }
        v := v * 10 + d;
        s := s[1..];
      }
      ip := SetByte(ip, octet - 1, v);
      if s == "" {
        return true, ip;
      }
      s := s[1..];
      octet := octet - 1;
    }
    return s == "", ip;
  }

  /** format_ip */
  method Format(buf: array<char>, size: nat, ip: Address)
    requires 0 < size <= buf.Length
    modifies buf
    ensures var n := Least(|Quad(ip)|, size - 1);
            buf[..n] == Quad(ip)[..n] && buf[n] == '\0'
    ensures buf[size..] == old(buf[size..])
  {
    RenderQuad(ip);
    PrintString(buf, size, FORMAT, Arguments(ip));
  }

  // ---------- Printing ----------

  lemma RenderDirective(rest: string, args: seq<nat>)
    requires args != [] && args[0] < UNSIGNED && Plain(rest, |args| - 1)
    ensures var f := "%u" + rest;
            Plain(f, |args|) && Render(f, args) == Digits(args[0], 10) + Render(rest, args[1..])
  {
    RenderNumber(rest, args);
    assert args[0] % UNSIGNED == args[0];
  }

  lemma RenderDot(rest: string, args: seq<nat>)
    requires Plain(rest, |args|)
    ensures var f := "." + rest;
            Plain(f, |args|) && Render(f, args) == "." + Render(rest, args)
  {
    assert ("." + rest)[1..] == rest;
  }

  /** One number and the dot after it. */
  lemma RenderField(rest: string, args: seq<nat>)
    requires args != [] && args[0] < UNSIGNED && Plain(rest, |args| - 1)
    ensures var f := "%u." + rest;
            Plain(f, |args|) && Render(f, args) == Digits(args[0], 10) + ("." + Render(rest, args[1..]))
  {
    RenderDot(rest, args[1..]);
    RenderDirective("." + rest, args);
    assert "%u" + ("." + rest) == "%u." + rest;
  }

  /** The format makes the dotted quad of the bytes. */
  lemma RenderQuad(ip: Address)
    ensures Plain(FORMAT, 4) && Render(FORMAT, Arguments(ip)) == Quad(ip)
  {
    var a := Arguments(ip);
    assert a[1..][1..] == a[2..] && a[2..][1..] == a[3..] && a[3..][1..] == [];
    RenderDirective("", a[3..]);
    assert "%u" + "" == "%u";
    RenderField("%u", a[2..]);
    RenderField("%u." + "%u", a[1..]);
    RenderField("%u." + ("%u." + "%u"), a);
    assert "%u." + ("%u." + ("%u." + "%u")) == FORMAT;
    QuadNests(ip);
  }

  /** The quad as the nested concatenations that rendering makes. */
  lemma QuadNests(ip: Address)
    ensures Quad(ip) == Digits(Byte(ip, 3), 10) +
                        ("." + (Digits(Byte(ip, 2), 10) + ("." + (Digits(Byte(ip, 1), 10) + ("." + (Digits(Byte(ip, 0), 10) + ""))))))
  {
  }

  lemma ByteDigits(v: nat)
    requires v < 0x100
    ensures 1 <= |Digits(v, 10)| <= 3 && forall i :: 0 <= i < |Digits(v, 10)| ==> '0' <= Digits(v, 10)[i] <= '9'
  {
    SetValue(v % 10);
    SetValue(v / 10 % 10);
    SetValue(v / 100);
    if v >= 100 {
      assert Digits(v / 10 / 10, 10) == [SET[v / 100]];
      assert Digits(v / 10, 10) == [SET[v / 100]] + [SET[v / 10 % 10]];
      assert Digits(v, 10) == [SET[v / 100], SET[v / 10 % 10], SET[v % 10]];
    } else if v >= 10 {
      assert Digits(v / 10, 10) == [SET[v / 10]];
      assert Digits(v, 10) == [SET[v / 10], SET[v % 10]];
    }
  }

  /** The text of every address fits in 16 characters with its terminator. */
  lemma QuadFits(ip: Address)
    ensures |Quad(ip)| <= 15
  {
    ByteDigits(Byte(ip, 0));
    ByteDigits(Byte(ip, 1));
    ByteDigits(Byte(ip, 2));
    ByteDigits(Byte(ip, 3));
  }

  // ---------- The round trip ----------

  ghost predicate Digital(t: string) {
    forall i :: 0 <= i < |t| ==> '0' <= t[i] <= '9'
  }

  /** Reading digits accumulates their value, as long as it stays below 256. */
  lemma {:induction false} OctetReads(t: string, rest: string, v: nat)
    requires Digital(t) && v < 0x100 && Value(t, 10, v) < 0x100 && (rest != "" ==> rest[0] == '.')
    ensures Octet(t + rest, v) == Optional.Some((Value(t, 10, v), rest))
  {
    if t == "" {
      assert t + rest == rest;
    } else {
      var d := DigitValue(t[0]);
      assert '0' <= t[0] <= '9' && Digital(t[1..]);
      ValueGrows(t[1..], v * 10 + d);
      OctetReads(t[1..], rest, v * 10 + d);
      OctetDigit(t + rest, v);
      assert (t + rest)[1..] == t[1..] + rest;
    }
  }

  /** A digit that keeps the number below 256 is read. */
  lemma OctetDigit(s: string, v: nat)
    requires s != "" && '0' <= s[0] <= '9' && v < 0x100 && v * 10 + DigitValue(s[0]) < 0x100
    ensures Octet(s, v) == Octet(s[1..], v * 10 + DigitValue(s[0]))
  {
  }

  lemma {:induction false} ValueGrows(t: string, v: nat)
    ensures v <= Value(t, 10, v)
  {
    if t != "" {
      ValueGrows(t[1..], v * 10 + DigitValue(t[0]));
    }
  }

  lemma OctetOfByte(v: nat, rest: string)
    requires v < 0x100 && (rest != "" ==> rest[0] == '.')
    ensures Octet(Digits(v, 10) + rest, 0) == Optional.Some((v, rest))
  {
    ByteDigits(v);
    DigitsValue(v, 10);
    OctetReads(Digits(v, 10), rest, 0);
  }

  ghost function Compose(b3: nat, b2: nat, b1: nat, b0: nat): nat {
    b3 * 0x100_0000 + b2 * 0x1_0000 + b1 * 0x100 + b0
  }

  lemma Split(n: nat, b: nat)
    requires b < 0x100
    ensures (n * 0x100 + b) / 0x100 == n && (n * 0x100 + b) % 0x100 == b
  {
  }

  lemma Shifts(ip: Address)
    ensures ip / 0x1_0000 == ip / 0x100 / 0x100 && ip / 0x100_0000 == ip / 0x100 / 0x100 / 0x100
  {
  }

  lemma ComposeBytes(b3: nat, b2: nat, b1: nat, b0: nat)
    requires b3 < 0x100 && b2 < 0x100 && b1 < 0x100 && b0 < 0x100
    ensures var ip := Compose(b3, b2, b1, b0);
            ip < UNSIGNED && Byte(ip, 3) == b3 && Byte(ip, 2) == b2 && Byte(ip, 1) == b1 && Byte(ip, 0) == b0
  {
    Shifts(Compose(b3, b2, b1, b0));
    Split(b3 * 0x1_0000 + b2 * 0x100 + b1, b0);
    Split(b3 * 0x100 + b2, b1);
    Split(b3, b2);
  }

  lemma IsComposed(ip: Address)
    ensures Byte(ip, 3) < 0x100 && ip == Compose(Byte(ip, 3), Byte(ip, 2), Byte(ip, 1), Byte(ip, 0))
  {
    Shifts(ip);
  }

  /** Bytes set one by one make the address, whatever it was before. */
  lemma BytesSet(old_ip: Address, ip: Address)
    ensures SetByte(SetByte(SetByte(SetByte(old_ip, 3, Byte(ip, 3)), 2, Byte(ip, 2)), 1, Byte(ip, 1)), 0, Byte(ip, 0)) == ip
  {
    IsComposed(ip);
    IsComposed(old_ip);
    var o2, o1, o0 := Byte(old_ip, 2), Byte(old_ip, 1), Byte(old_ip, 0);
    var b3, b2, b1 := Byte(ip, 3), Byte(ip, 2), Byte(ip, 1);
    ComposeBytes(b3, o2, o1, o0);
    assert SetByte(old_ip, 3, b3) == Compose(b3, o2, o1, o0);
    ComposeBytes(b3, b2, o1, o0);
    assert SetByte(Compose(b3, o2, o1, o0), 2, b2) == Compose(b3, b2, o1, o0);
    ComposeBytes(b3, b2, b1, o0);
    assert SetByte(Compose(b3, b2, o1, o0), 1, b1) == Compose(b3, b2, b1, o0);
  }

  lemma ParseOne(v: nat, rest: string, ip: Address, octet: nat)
    requires v < 0x100 && 0 < octet <= 4
    ensures ParseFrom(Digits(v, 10) + ("." + rest), ip, octet) == ParseFrom(rest, SetByte(ip, octet - 1, v), octet - 1)
    ensures ParseFrom(Digits(v, 10) + "", ip, octet) == (true, SetByte(ip, octet - 1, v))
  {
    OctetOfByte(v, "." + rest);
    OctetOfByte(v, "");
    assert ("." + rest)[1..] == rest;
  }

  /** parse_ip of what format_ip writes succeeds and gives the address back, whatever the output held before. */
  lemma RoundTrip(ip: Address, old_ip: Address)
    ensures ParseFrom(Quad(ip), old_ip, 4) == (true, ip)
  {
    QuadNests(ip);
    var d0 := Digits(Byte(ip, 0), 10) + "";
    var d1 := Digits(Byte(ip, 1), 10) + ("." + d0);
    var d2 := Digits(Byte(ip, 2), 10) + ("." + d1);
    var ip3 := SetByte(old_ip, 3, Byte(ip, 3));
    var ip2 := SetByte(ip3, 2, Byte(ip, 2));
    var ip1 := SetByte(ip2, 1, Byte(ip, 1));
    ParseOne(Byte(ip, 3), d2, old_ip, 4);
    ParseOne(Byte(ip, 2), d1, ip3, 3);
    ParseOne(Byte(ip, 1), d0, ip2, 2);
    ParseOne(Byte(ip, 0), "", ip1, 1);
    BytesSet(old_ip, ip);
  }

  /** No address's text holds a terminator. */
  lemma QuadHasNoNull(ip: Address)
    ensures '\0' !in Quad(ip)
  {
    ByteDigits(Byte(ip, 0));
    ByteDigits(Byte(ip, 1));
    ByteDigits(Byte(ip, 2));
    ByteDigits(Byte(ip, 3));
  }

  /** The text of a C string: what stands before the first terminator. */
  method TextOf(buf: array<char>) returns (text: string)
    requires '\0' in buf[..]
    ensures |text| < buf.Length && text == buf[..|text|] && buf[|text|] == '\0'
    ensures forall i :: 0 <= i < |text| ==> buf[i] != '\0'
  {
    var n := 0;
    while buf[n] != '\0'
      invariant 0 <= n < buf.Length && '\0' in buf[n..]
      invariant forall i :: 0 <= i < n ==> buf[i] != '\0'
      decreases buf.Length - n
    {
      assert buf[n..] == [buf[n]] + buf[n + 1..];
      n := n + 1;
    }
    text := buf[..n];
  }

  /** format_ip into a buffer of 16 characters: the string there is the dotted quad. */
  method FormatText(ip: Address) returns (text: string)
    ensures text == Quad(ip)
  {
    var buf := new char[16];
    Format(buf, 16, ip);
    QuadFits(ip);
    QuadHasNoNull(ip);
    ghost var quad, n := Quad(ip), |Quad(ip)|;
    assert buf[n] == '\0' && buf[..n] == quad;
    assert forall i :: 0 <= i < n ==> buf[i] == quad[i];
    assert buf[n] in buf[..];
    text := TextOf(buf);
  }

  /** format_ip, and parse_ip of the string it leaves, whatever was held before. */
  method FormatParse(ip: Address, old_ip: Address) returns (ok: bool, r: Address)
    ensures ok && r == ip
  {
    var text := FormatText(ip);
    RoundTrip(ip, old_ip);
    ok, r := Parse(text, old_ip);
  }

  // ---------- Which texts parse_ip takes ----------

  /** What stands between the dots of a text. */
  function Fields(s: string): (r: seq<string>)
    ensures r != []
  {
    if s == "" then [""]
    else
      var r := Fields(s[1..]);
      if s[0] == '.' then [""] + r else [[s[0]] + r[0]] + r[1..]
  }

  function Joined(fields: seq<string>): string
    requires fields != []
  {
    if |fields| == 1 then fields[0] else fields[0] + "." + Joined(fields[1..])
  }

  /** The fields hold no dot, and joined by dots they are the text. */
  lemma {:induction false} FieldsJoin(s: string)
    ensures Joined(Fields(s)) == s
    ensures forall i :: 0 <= i < |Fields(s)| ==> '.' !in Fields(s)[i]
  {
    if s != "" {
      FieldsJoin(s[1..]);
      var r := Fields(s[1..]);
      assert s == [s[0]] + s[1..];
      assert |r| > 1 ==> r == [r[0]] + r[1..];
    }
  }

  /** A number below 256, in digits; nothing at all is read as 0. */
  ghost predicate Number(t: string) {
    Digital(t) && Value(t, 10, 0) < 0x100
  }

  /** At most `k` numbers, or `k` of them and a dot. */
  ghost predicate Accepted(fields: seq<string>, k: nat) {
    && (|fields| <= k || (|fields| == k + 1 && fields[k] == ""))
    && forall i :: 0 <= i < |fields| ==> Number(fields[i])
  }

  /** How many fields are read before the first that is no number. */
  ghost function Leading(fields: seq<string>): nat {
    if fields == [] || !Number(fields[0]) then 0 else 1 + Leading(fields[1..])
  }

  lemma {:induction false} OctetExact(s: string, v: nat)
    requires v < 0x100
    ensures var t := Fields(s)[0];
            && |t| <= |s|
            && Octet(s, v) == (if Digital(t) && Value(t, 10, v) < 0x100 then Optional.Some((Value(t, 10, v), s[|t|..]))
                               else Optional.None)
            && (if |t| == |s| then |Fields(s)| == 1 else s[|t|] == '.' && Fields(s)[1..] == Fields(s[|t| + 1..]))
  {
    if s != "" && s[0] != '.' {
      var t, u, next := Fields(s)[0], Fields(s[1..])[0], v * 10 + DigitValue(s[0]);
      FieldCons(s[0], u, v);
      assert t == [s[0]] + u;
      OctetCons(s, v);
      OctetExact(s[1..], if next < 0x100 then next else 0);
      assert s[1..][|u|..] == s[|t|..];
      if |t| < |s| {
        assert s[1..][|u| + 1..] == s[|t| + 1..];
      }
    }
  }

  /** What the loop does with the next character of a number. */
  lemma OctetCons(s: string, v: nat)
    requires s != "" && s[0] != '.' && v < 0x100
    ensures var next := v * 10 + DigitValue(s[0]);
            Octet(s, v) == if '0' <= s[0] <= '9' && next < 0x100 then Octet(s[1..], next) else Optional.None
  {
  }

  lemma FieldCons(c: char, u: string, v: nat)
    ensures var t, next := [c] + u, v * 10 + DigitValue(c);
            && (Digital(t) <==> '0' <= c <= '9' && Digital(u))
            && Value(t, 10, v) == Value(u, 10, next) >= next
  {
    DigitalCons(c, u);
    assert ([c] + u)[1..] == u;
    ValueGrows(u, v * 10 + DigitValue(c));
  }

  lemma DigitalCons(c: char, t: string)
    ensures Digital([c] + t) <==> '0' <= c <= '9' && Digital(t)
  {
    assert ([c] + t)[0] == c;
    assert forall i :: 0 <= i < |t| ==> ([c] + t)[i + 1] == t[i];
  }

  lemma SetByteAt(ip: Address, n: nat, v: nat, m: nat)
    requires n < 4 && m < 4 && v < 0x100
    ensures Byte(SetByte(ip, n, v), m) == if m == n then v else Byte(ip, m)
  {
    IsComposed(ip);
    var b3, b2, b1, b0 := Byte(ip, 3), Byte(ip, 2), Byte(ip, 1), Byte(ip, 0);
    match n
    case 0 => ComposeBytes(b3, b2, b1, v);
    case 1 => ComposeBytes(b3, b2, v, b0);
    case 2 => ComposeBytes(b3, v, b1, b0);
    case 3 => ComposeBytes(v, b2, b1, b0);
  }

  /** The n-th byte that parsing leaves, when `octet` bytes are still to be read from the fields. */
  ghost function ByteRead(fields: seq<string>, ip: Address, octet: nat, n: nat): nat
    requires n < 4 && octet <= 4
  {
    var i := octet - 1 - n;
    if 0 <= i < |fields| && i < Leading(fields) then Value(fields[i], 10, 0) else Byte(ip, n)
  }

  /**
    parse_ip succeeds exactly on one to four numbers between dots, and on four with a dot after them;
    an empty number is 0.  Whether or not it succeeds it sets, from the highest byte on, one byte for
    each number before the first field that is none, and leaves the other bytes alone.
   */
  lemma {:induction false} ParseExact(s: string, ip: Address, octet: nat, n: nat)
    requires octet <= 4 && n < 4
    ensures ParseFrom(s, ip, octet).0 <==> Accepted(Fields(s), octet)
    ensures Byte(ParseFrom(s, ip, octet).1, n) == ByteRead(Fields(s), ip, octet, n)
    decreases octet
  {
    var fields := Fields(s);
    if octet > 0 {
      OctetExact(s, 0);
      var t := fields[0];
      if Number(t) {
        var next := SetByte(ip, octet - 1, Value(t, 10, 0));
        ReadRest(fields, ip, octet, n);
        if |t| < |s| {
          assert s[|t|..][1..] == s[|t| + 1..];
          ParseExact(s[|t| + 1..], next, octet - 1, n);
          AcceptedRest(fields, octet);
        }
      }
    } else if s != "" {
      FieldsJoin(s);
    }
  }

  /** Reading a number sets its byte; the rest is read from the fields that are left. */
  lemma ReadRest(fields: seq<string>, ip: Address, octet: nat, n: nat)
    requires 0 < octet <= 4 && n < 4 && fields != [] && Number(fields[0])
    ensures var next := SetByte(ip, octet - 1, Value(fields[0], 10, 0));
            && ByteRead(fields, ip, octet, n) == ByteRead(fields[1..], next, octet - 1, n)
            && (|fields| == 1 ==> ByteRead(fields, ip, octet, n) == Byte(next, n))
  {
    SetByteAt(ip, octet - 1, Value(fields[0], 10, 0), n);
    assert octet - 1 - n > 0 && octet - 1 - n < |fields| ==> fields[1..][octet - 2 - n] == fields[octet - 1 - n];
  }

  lemma AcceptedRest(fields: seq<string>, k: nat)
    requires k > 0 && |fields| > 1
    ensures Accepted(fields, k) <==> Number(fields[0]) && Accepted(fields[1..], k - 1)
  {
    if Number(fields[0]) && Accepted(fields[1..], k - 1) {
      forall i | 0 <= i < |fields| ensures Number(fields[i]) {
        if i > 0 {
          assert fields[i] == fields[1..][i - 1];
        }
      }
    }
  }
}
