/** The thank-you message shown after a successful order: a greeting with the
    customer's name, a size label and a clause giving the number of toppings. */
module Message {
  import opened Draft
  import opened Validation

  datatype Option<T> = None | Some(value: T)

  const Greeting := "Thank you for your order, "
  const YourPart := "! Your "
  const PizzaPart := " pizza"
  const NoToppingsClause := " with no toppings"
  const WithPart := " with "
  const ToppingWord := " topping"

  predicate IsDigit(c: char)
  {
    '0' <= c <= '9'
  }

  predicate AllDigits(s: string)
  {
    forall i :: 0 <= i < |s| ==> IsDigit(s[i])
  }

  function DigitChar(d: nat): (c: char)
    requires d < 10
    ensures IsDigit(c) && c as int - '0' as int == d
  {
    ('0' as int + d) as char
  }

  /** The decimal digits of `n`, as a number is written into a template string. */
  function Decimal(n: nat): (s: string)
    ensures |s| > 0 && AllDigits(s)
    ensures n == 0 ==> s == "0"
    ensures n > 0 ==> s[0] != '0'
  {
    if n < 10 then [DigitChar(n)] else Decimal(n / 10) + [DigitChar(n % 10)]
  }

  /** The number a string of decimal digits denotes. */
  function DecimalValue(s: string): nat
    requires AllDigits(s)
  {
    if s == [] then 0
    else 10 * DecimalValue(s[..|s| - 1]) + (s[|s| - 1] as int - '0' as int)
  }

  /** Reading the digits back gives the number that was written. */
  lemma {:induction false} DecimalRoundTrip(n: nat)
    ensures DecimalValue(Decimal(n)) == n
  {
    if n >= 10 {
      var s := Decimal(n);
      assert s[..|s| - 1] == Decimal(n / 10);
      DecimalRoundTrip(n / 10);
    }
  }

  /** The size label: "small" for S, "medium" for M, "large" for anything else. */
  function SizeLabel(size: string): (word: string)
    ensures word in {"small", "medium", "large"}
    ensures word == "small" <==> size == "S"
    ensures word == "medium" <==> size == "M"
  {
    if size == "S" then "small" else if size == "M" then "medium" else "large"
  }

  /** The clause closing the message: no toppings, or their count with a
      plural "s" when there is more than one. */
  function ToppingClause(n: nat): (c: string)
    ensures n == 1 ==> c == " with 1 topping"
    ensures n != 1 ==> EndsWith(c, " toppings")
  {
    if n == 0 then NoToppingsClause
    else WithPart + Decimal(n) + ToppingWord + (if n > 1 then "s" else "")
  }

  /** The message for an accepted draft, name untrimmed. */
  function SuccessMessage(d: Draft): (m: string)
    ensures |Greeting| + |d.fullName| <= |m| && m[..|Greeting| + |d.fullName|] == Greeting + d.fullName
    ensures EndsWith(m, ToppingClause(|d.toppings|))
  {
    var head := Greeting + d.fullName;
    var middle := YourPart + SizeLabel(d.size) + PizzaPart;
    var clause := ToppingClause(|d.toppings|);
    ThreeParts(head, middle, clause);
    head + middle + clause
  }

  /** Slicing a three-part concatenation at the part boundaries gives the parts back. */
  lemma ThreeParts(a: string, b: string, c: string)
    ensures var s := a + b + c;
            && s[..|a|] == a && s[|a|..|a| + |b|] == b && s[|a| + |b|..] == c
            && EndsWith(s, c)
  {
    var s := a + b + c;
    assert s[..|a|] == a;
    assert s[|a|..|a| + |b|] == b;
    assert s[|a| + |b|..] == c;
  }

  predicate EndsWith(s: string, suffix: string)
  {
    |suffix| <= |s| && s[|s| - |suffix|..] == suffix
  }

  /** What is left of `s` after `prefix`, if `s` starts with it. */
  function StripPrefix(s: string, prefix: string): Option<string>
  {
    if |prefix| <= |s| && s[..|prefix|] == prefix then Some(s[|prefix|..]) else None
  }

  /** What is left of `s` before `suffix`, if `s` ends with it. */
  function StripSuffix(s: string, suffix: string): Option<string>
  {
    if EndsWith(s, suffix) then Some(s[..|s| - |suffix|]) else None
  }

  function ParseCount(s: string): Option<nat>
  {
    if |s| > 0 && AllDigits(s) then Some(DecimalValue(s)) else None
  }

  /** Reads the topping count back out of a clause. */
  function ParseToppingClause(c: string): Option<nat>
  {
    if c == NoToppingsClause then Some(0)
    else match StripPrefix(c, WithPart)
      case None => None
      case Some(rest) =>
        match StripSuffix(rest, ToppingWord + "s")
        case Some(count) => ParseCount(count)
        case None =>
          match StripSuffix(rest, ToppingWord)
          case Some(count) => ParseCount(count)
          case None => None
  }

  lemma StripPrefixConcat(prefix: string, rest: string)
    ensures StripPrefix(prefix + rest, prefix) == Some(rest)
  {
    assert (prefix + rest)[..|prefix|] == prefix;
    assert (prefix + rest)[|prefix|..] == rest;
  }

  lemma StripSuffixConcat(front: string, suffix: string)
    ensures StripSuffix(front + suffix, suffix) == Some(front)
  {
    var s := front + suffix;
    assert s[|s| - |suffix|..] == suffix;
    assert s[..|s| - |suffix|] == front;
  }

  /** A string that differs from `suffix` at the position where `suffix`
      would start does not end with it. */
  lemma StripSuffixMismatch(s: string, suffix: string, i: nat)
    requires |suffix| <= |s| && i < |suffix|
    requires s[|s| - |suffix| + i] != suffix[i]
    ensures StripSuffix(s, suffix) == None
  {
    assert s[|s| - |suffix|..][i] != suffix[i];
  }

  /** A clause that carries digits is never the "no toppings" clause. */
  lemma DigitClauseIsNotNone(digits: string, tail: string)
    requires |digits| > 0 && AllDigits(digits)
    ensures WithPart + (digits + tail) != NoToppingsClause
  {
    var c := WithPart + (digits + tail);
    assert c[|WithPart|] == digits[0];
    assert NoToppingsClause[|WithPart|] == 'n';
  }

  /** A clause that is not the "no toppings" one and starts with " with "
      reads back as what its remainder gives. */
  lemma ParseWithRest(rest: string)
    requires WithPart + rest != NoToppingsClause
    ensures ParseToppingClause(WithPart + rest) ==
            match StripSuffix(rest, ToppingWord + "s")
            case Some(count) => ParseCount(count)
            case None =>
              match StripSuffix(rest, ToppingWord)
              case Some(count) => ParseCount(count)
              case None => None
  {
    StripPrefixConcat(WithPart, rest);
  }

  /** The plural clause reads back as its digits' value. */
  lemma ParsePluralClause(digits: string)
    requires |digits| > 0 && AllDigits(digits)
    ensures ParseToppingClause(WithPart + (digits + (ToppingWord + "s"))) == Some(DecimalValue(digits))
  {
    var tail := ToppingWord + "s";
    DigitClauseIsNotNone(digits, tail);
    ParseWithRest(digits + tail);
    StripSuffixConcat(digits, tail);
  }

  /** The singular clause reads back as one. */
  lemma ParseSingularClause()
    ensures ParseToppingClause(WithPart + ("1" + ToppingWord)) == Some(1)
  {
    var rest := "1" + ToppingWord;
    DigitClauseIsNotNone("1", ToppingWord);
    ParseWithRest(rest);
    assert |rest| == |ToppingWord + "s"|;
    StripSuffixMismatch(rest, ToppingWord + "s", 0);
    StripSuffixConcat("1", ToppingWord);
    assert DecimalValue("1") == 1 by { assert "1"[..0] == []; }
  }

  /** Builds the message step by step, appending to it as the order form does. */
  method ComposeSuccessMessage(d: Draft) returns (message: string)
    ensures message == SuccessMessage(d)
  {
    ghost var head := Greeting + d.fullName;
    ghost var middle := YourPart + SizeLabel(d.size) + PizzaPart;
    message := Greeting + d.fullName + YourPart;
    message := message + SizeLabel(d.size) + PizzaPart;
    AppendAssoc(head, YourPart, SizeLabel(d.size));
    AppendAssoc(head, YourPart + SizeLabel(d.size), PizzaPart);
    assert message == head + middle;
    var count := |d.toppings|;
    if count == 0 {
      message := message + NoToppingsClause;
    } else {
      var before := message;
      message := message + WithPart + Decimal(count) + ToppingWord + (if count > 1 then "s" else "");
      AppendAssoc(before, WithPart, Decimal(count));
      AppendAssoc(before, WithPart + Decimal(count), ToppingWord);
      AppendAssoc(before, WithPart + Decimal(count) + ToppingWord, if count > 1 then "s" else "");
    }
  }

  lemma AppendAssoc(a: string, b: string, c: string)
    ensures a + b + c == a + (b + c)
  {
  }

  /** The clause states the topping count: it can be read back exactly. */
  lemma ToppingClauseRoundTrip(n: nat)
    ensures ParseToppingClause(ToppingClause(n)) == Some(n)
  {
    if n > 1 {
      var digits := Decimal(n);
      DecimalRoundTrip(n);
      assert ToppingClause(n) == WithPart + (digits + (ToppingWord + "s"));
      ParsePluralClause(digits);
    } else if n == 1 {
      assert ToppingClause(n) == WithPart + ("1" + ToppingWord);
      ParseSingularClause();
    }
  }

  /** The clause says "no toppings" only for none, and has the plural "s"
      exactly when there is more than one topping. */
  lemma ToppingClausePlural(n: nat)
    ensures ToppingClause(n) == NoToppingsClause <==> n == 0
    ensures n > 0 ==> (EndsWith(ToppingClause(n), "s") <==> n > 1)
  {
    if n > 0 {
      var c := ToppingClause(n);
      assert c[|WithPart|] == Decimal(n)[0];
      assert NoToppingsClause[|WithPart|] == 'n';
      if n == 1 {
        assert c[|c| - 1] == 'g';
      }
    }
  }

  /** The message opens with the greeting and the name exactly as typed, and
      its tail reports the number of toppings. */
  lemma SuccessMessageShape(d: Draft)
    ensures var k := |Greeting| + |d.fullName|;
            var m := SuccessMessage(d);
            && k <= |m| && m[..k] == Greeting + d.fullName
            && var j := k + |YourPart| + |SizeLabel(d.size)| + |PizzaPart|;
               && j <= |m| && m[k..j] == YourPart + SizeLabel(d.size) + PizzaPart
               && ParseToppingClause(m[j..]) == Some(|d.toppings|)
  {
    var head := Greeting + d.fullName;
    var middle := YourPart + SizeLabel(d.size) + PizzaPart;
    var clause := ToppingClause(|d.toppings|);
    ThreeParts(head, middle, clause);
    ToppingClauseRoundTrip(|d.toppings|);
  }

  /** For a draft the schema accepts, the label names the chosen size and the
      "no toppings" branch is never taken. */
  lemma AcceptedMessage(d: Draft)
    requires Validate(d) == map[]
    ensures SizeLabel(d.size) == "small" <==> d.size == "S"
    ensures SizeLabel(d.size) == "medium" <==> d.size == "M"
    ensures SizeLabel(d.size) == "large" <==> d.size == "L"
    ensures ToppingClause(|d.toppings|) != NoToppingsClause
  {
    ToppingClausePlural(|d.toppings|);
  }
}
