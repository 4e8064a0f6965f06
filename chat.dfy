/**
 * The chatbot's context text: one line `type - ₹amount - category -
 * description` per transaction, joined with newlines, and the reply
 * shown to the user. The question-answering model itself is a parameter.
 */
module Chat {
  import opened Wrappers
  import opened Transactions

  const Newline := '\n'
  const ErrorPrefix := "Error generating response: "

  predicate IsDigit(c: char)
  {
    '0' <= c <= '9'
  }

  predicate AllDigits(s: string)
  {
    forall i :: 0 <= i < |s| ==> IsDigit(s[i])
  }

  function DigitChar(d: nat): (c: char)
    requires d < 10
    ensures IsDigit(c)
  {
    (d + '0' as int) as char
  }

  /** Decimal digits of n, without leading zeros. */
  function Digits(n: nat): (s: string)
    ensures |s| >= 1 && AllDigits(s)
  {
    if n < 10 then [DigitChar(n)] else Digits(n / 10) + [DigitChar(n % 10)]
  }

  /** The number a string of decimal digits denotes. */
  function DigitsValue(s: string): nat
    requires AllDigits(s)
  {
    if s == [] then 0 else DigitsValue(s[..|s| - 1]) * 10 + (s[|s| - 1] as int - '0' as int)
  }

  lemma {:induction false} DigitsRoundTrip(n: nat)
    ensures DigitsValue(Digits(n)) == n
  {
    if n >= 10 {
      DigitsRoundTrip(n / 10);
      var s := Digits(n);
      assert s[..|s| - 1] == Digits(n / 10);
    }
  }

  /** The digits after the point: one or two, no trailing zero beyond the first. */
  function FractionDigits(cents: nat): (f: string)
    requires cents < 100
    ensures 1 <= |f| <= 2 && AllDigits(f)
  {
    if cents % 10 == 0 then [DigitChar(cents / 10)] else [DigitChar(cents / 10), DigitChar(cents % 10)]
  }

  /**
   * How Python prints the float holding `paise` hundredths: an optional
   * minus sign, the whole rupees, a point, then the fraction without
   * trailing zeros but with at least one digit (100000 prints "1000.0").
   */
  function FormatAmount(paise: int): string
  {
    var m := if paise < 0 then -paise else paise;
    (if paise < 0 then "-" else "") + Digits(m / 100) + "." + FractionDigits(m % 100)
  }

  /** Position of the first `c` in `s`, or |s| when there is none. */
  function IndexOf(s: string, c: char): (k: nat)
    ensures k <= |s|
    ensures k < |s| ==> s[k] == c
    ensures forall i :: 0 <= i < k ==> s[i] != c
  {
    if s == [] then 0
    else if s[0] == c then 0
    else 1 + IndexOf(s[1..], c)
  }

  /** In `a + b`, the first `c` is the head of `b` when `a` holds none. */
  lemma {:induction false} IndexOfFirstMark(a: string, b: string, c: char)
    requires forall i :: 0 <= i < |a| ==> a[i] != c
    requires |b| > 0 && b[0] == c
    ensures IndexOf(a + b, c) == |a|
  {
    if a != [] {
      assert (a + b)[1..] == a[1..] + b;
      IndexOfFirstMark(a[1..], b, c);
    }
  }

  /** Reads back an amount written as digits, a point and one or two digits. */
  function ParseUnsigned(s: string): Option<nat>
  {
    var k := IndexOf(s, '.');
    if k == |s| then None
    else
      var whole, fraction := s[..k], s[k + 1..];
      if |whole| == 0 || !AllDigits(whole) || |fraction| == 0 || |fraction| > 2 || !AllDigits(fraction) then None
      else Some(DigitsValue(whole) * 100 + (if |fraction| == 1 then DigitsValue(fraction) * 10 else DigitsValue(fraction)))
  }

  /** Reads back an amount as FormatAmount writes it, in paise. */
  function ParseAmount(s: string): Option<int>
  {
    if s != [] && s[0] == '-' then
      match ParseUnsigned(s[1..])
      case Some(v) => Some(-(v as int))
      case None => None
    else
      match ParseUnsigned(s)
      case Some(v) => Some(v)
      case None => None
  }

  lemma FractionDigitsValue(cents: nat)
    requires cents < 100
    ensures (if |FractionDigits(cents)| == 1 then DigitsValue(FractionDigits(cents)) * 10
             else DigitsValue(FractionDigits(cents))) == cents
  {
    var f := FractionDigits(cents);
    assert f[..0] == [];
    if |f| == 2 {
      var hi := [DigitChar(cents / 10)];
      assert f[..1] == hi && hi[..0] == [];
      assert DigitsValue(hi) == cents / 10;
      assert f[1] as int - '0' as int == cents % 10;
    }
  }

  lemma ParseUnsignedOfFormat(rupees: nat, cents: nat)
    requires cents < 100
    ensures ParseUnsigned(Digits(rupees) + "." + FractionDigits(cents)) == Some(rupees * 100 + cents)
  {
    var w, f := Digits(rupees), FractionDigits(cents);
    var s := w + "." + f;
    IndexOfFirstMark(w, "." + f, '.');
    assert s == w + ("." + f);
    assert s[..|w|] == w && s[|w| + 1..] == f;
    DigitsRoundTrip(rupees);
    FractionDigitsValue(cents);
  }

  /** A leading minus sign negates what follows it. */
  lemma ParseNegative(u: string, v: nat)
    requires ParseUnsigned(u) == Some(v)
    ensures ParseAmount("-" + u) == Some(-(v as int))
  {
    assert ("-" + u)[1..] == u;
  }

  /** The printed amount denotes exactly the amount: nothing is rounded away. */
  lemma FormatAmountRoundTrip(paise: int)
    ensures ParseAmount(FormatAmount(paise)) == Some(paise)
  {
    var m := if paise < 0 then -paise else paise;
    var unsigned := Digits(m / 100) + "." + FractionDigits(m % 100);
    ParseUnsignedOfFormat(m / 100, m % 100);
    if paise < 0 {
      assert FormatAmount(paise) == "-" + unsigned;
      ParseNegative(unsigned, m);
    } else {
      assert FormatAmount(paise) == unsigned;
      assert unsigned[0] == Digits(m / 100)[0];
    }
  }

  /** The context line of one transaction. */
  function Line(t: Txn): string
  {
    t.kind + " - ₹" + FormatAmount(t.amount) + " - " + t.category + " - " + t.description
  }

  /** `"\n".join(lines)` */
  function Join(lines: seq<string>): string
  {
    if lines == [] then ""
    else if |lines| == 1 then lines[0]
    else lines[0] + [Newline] + Join(lines[1..])
  }

  /** `s.split("\n")`: the pieces between newlines; the empty string gives one empty piece. */
  function Split(s: string): (pieces: seq<string>)
    ensures |pieces| >= 1
    decreases |s|
  {
    var k := IndexOf(s, Newline);
    if k == |s| then [s] else [s[..k]] + Split(s[k + 1..])
  }

  function Lines(ts: seq<Txn>): (r: seq<string>)
    ensures |r| == |ts|
    ensures forall i :: 0 <= i < |ts| ==> r[i] == Line(ts[i])
  {
    if ts == [] then [] else [Line(ts[0])] + Lines(ts[1..])
  }

  /** The chatbot's context: the lines of the user's transactions, newline separated. */
  function Context(ts: seq<Txn>): string
  {
    Join(Lines(ts))
  }

  predicate NoNewline(s: string)
  {
    forall i :: 0 <= i < |s| ==> s[i] != Newline
  }

  /** A free-text field that holds no newline keeps its row on one line. */
  predicate SingleLine(t: Txn)
  {
    NoNewline(t.kind) && NoNewline(t.category) && NoNewline(t.description)
  }

  lemma LineHasNoNewline(t: Txn)
    requires SingleLine(t)
    ensures NoNewline(Line(t))
  {
  }

  /** A newline-free first piece is split off at the first newline. */
  lemma SplitFirst(first: string, rest: string)
    requires NoNewline(first)
    ensures Split(first + [Newline] + rest) == [first] + Split(rest)
  {
    var s := first + [Newline] + rest;
    IndexOfFirstMark(first, [Newline] + rest, Newline);
    assert s == first + ([Newline] + rest);
    assert s[..|first|] == first && s[|first| + 1..] == rest;
  }

  /** Splitting a join of newline-free lines gives the lines back. */
  lemma {:induction false} SplitJoin(lines: seq<string>)
    requires |lines| >= 1
    requires forall i :: 0 <= i < |lines| ==> NoNewline(lines[i])
    ensures Split(Join(lines)) == lines
  {
    if |lines| == 1 {
      assert IndexOf(lines[0], Newline) == |lines[0]|;
    } else {
      SplitFirst(lines[0], Join(lines[1..]));
      SplitJoin(lines[1..]);
      assert lines == [lines[0]] + lines[1..];
    }
  }

  /**
   * The context holds one line per transaction, in order, as long as no
   * free-text field holds a newline of its own.
   */
  lemma ContextLines(ts: seq<Txn>)
    requires forall i :: 0 <= i < |ts| ==> SingleLine(ts[i])
    ensures ts == [] ==> Context(ts) == ""
    ensures ts != [] ==> |Split(Context(ts))| == |ts|
    ensures forall i :: 0 <= i < |ts| ==> Split(Context(ts))[i] == Line(ts[i])
  {
    if ts != [] {
      forall i | 0 <= i < |ts| ensures NoNewline(Lines(ts)[i]) {
        LineHasNoNewline(ts[i]);
      }
      SplitJoin(Lines(ts));
    }
  }

  /**
   * The chatbot's reply to a posted message: the model's answer, or the
   * error text when the model fails; the request itself never fails.
   * `answer` stands for the question-answering model.
   */
  function Reply(ts: seq<Txn>, message: string, answer: (string, string) -> Result<string, string>): string
  {
    match answer(Context(ts), message)
    case Success(text) => text
    case Failure(e) => ErrorPrefix + e
  }
}
