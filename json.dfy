/** The slice of Jackson's tree model the client uses: JSON values, the
    path/asText/asInt accessors, and the distinction between a Java null,
    a MissingNode and a present node. */
module Json {
  import opened Wrappers
  import opened Text

  datatype Json =
    | Null
    | Bool(b: bool)
    | Num(n: int)
    | Str(s: string)
    | Arr(elems: seq<Json>)
    | Obj(fields: map<string, Json>)

  /** What a JsonNode-typed Java variable can hold. */
  datatype Node = NullRef | Missing | Present(json: Json)

  /** JsonNode.path(key): the member of an object, or MissingNode for anything else.
      Calling it on a Java null is a NullPointerException, which callers check first. */
  function Path(n: Node, key: string): (r: Node)
    requires !n.NullRef?
    ensures !r.NullRef?
    ensures r.Present? <==> n.Present? && n.json.Obj? && key in n.json.fields
    ensures r.Present? ==> r.json == n.json.fields[key]
  {
    match n
    case Present(Obj(m)) => if key in m then Present(m[key]) else Missing
    case _ => Missing
  }

  /** JsonNode.asText(): the text of a value node, "" for containers and MissingNode. */
  function AsText(n: Node): string
    requires !n.NullRef?
  {
    match n
    case Missing => ""
    case Present(j) =>
      match j
      case Null => "null"
      case Bool(b) => if b then "true" else "false"
      case Num(k) => IntToString(k)
      case Str(s) => s
      case Arr(_) => ""
      case Obj(_) => ""
  }

  const TWO_TO_32: int := 0x1_0000_0000
  const TWO_TO_31: int := 0x8000_0000

  /** Narrowing to a 32-bit two's-complement int, as (int) on a long does. */
  function ToInt32(n: int): (r: int)
    ensures -TWO_TO_31 <= r < TWO_TO_31
    ensures (r - n) % TWO_TO_32 == 0
    ensures -TWO_TO_31 <= n < TWO_TO_31 ==> r == n
  {
    var m := n % TWO_TO_32;
    if m >= TWO_TO_31 then m - TWO_TO_32 else m
  }

  /** JsonNode.asInt(0): numbers narrowed to int, booleans as 1/0, text read
      by ParseAsInt, everything else 0. */
  function AsIntOrZero(n: Node): (r: int)
    requires !n.NullRef?
    ensures IsInt32(r)
    ensures n.Present? && n.json.Num? ==> r == ToInt32(n.json.n)
    ensures n.Present? && n.json.Str? ==> r == ParseAsInt(n.json.s)
    ensures n.Present? && n.json.Bool? ==> r == if n.json.b then 1 else 0
    ensures n.Missing? || (n.Present? && (n.json.Null? || n.json.Arr? || n.json.Obj?)) ==> r == 0
  {
    match n
    case Missing => 0
    case Present(j) =>
      match j
      case Num(k) => ToInt32(k)
      case Bool(b) => if b then 1 else 0
      case Str(s) => ParseAsInt(s)
      case _ => 0
  }

  /** Jackson's NumberInput.parseAsInt(text, 0), behind TextNode.asInt(0): the
      text is trimmed and one leading '+' dropped; a sign and digits go to
      Integer.parseInt, anything else to Double.parseDouble and an (int) cast. */
  function ParseAsInt(text: string): (r: int)
    ensures IsInt32(r)
    ensures Trim(text) == [] ==> r == 0
  {
    ParseTrimmed(Trim(text))
  }

  /** parseAsInt after the trim. */
  function ParseTrimmed(t: string): (r: int)
    ensures IsInt32(r)
    ensures t == [] ==> r == 0
  {
    if t == [] then 0
    else
      var s := if t[0] == '+' then t[1..] else t;
      var start := if t[0] == '-' then 1 else 0;
      if DigitsFrom(s, start) then ParseInt(s) else ParseDoubleToInt(s)
  }

  /** Every character of s from index start on is a decimal digit. */
  predicate DigitsFrom(s: string, start: nat) {
    forall i :: start <= i < |s| ==> '0' <= s[i] <= '9'
  }

  /** Integer.parseInt over an optional '-' and digits, with 0 for the
      NumberFormatException of an empty digit string or a value outside int. */
  function ParseInt(s: string): (r: int)
    requires DigitsFrom(s, if |s| > 0 && s[0] == '-' then 1 else 0)
    ensures IsInt32(r)
    ensures AllDigits(s) && DigitsValue(s) < TWO_TO_31 ==> r == DigitsValue(s)
    ensures |s| > 1 && s[0] == '-' && DigitsValue(s[1..]) <= TWO_TO_31 ==> r == 0 - DigitsValue(s[1..])
    ensures AllDigits(s) && DigitsValue(s) >= TWO_TO_31 ==> r == 0
    ensures |s| > 1 && s[0] == '-' && DigitsValue(s[1..]) > TWO_TO_31 ==> r == 0
    ensures s == [] || s == "-" ==> r == 0
  {
    if s == [] || s == "-" then 0
    else
      var v := if s[0] == '-' then 0 - DigitsValue(s[1..]) else DigitsValue(s);
      if IsInt32(v) then v else 0
  }

  /** (int) Double.parseDouble(s) for plain decimal text: an optional sign,
      digits, and an optional '.' with more digits. The cast truncates toward
      zero and saturates at the int range; text not of that form is the
      NumberFormatException that parseAsInt answers with 0. */
  function ParseDoubleToInt(s: string): (r: int)
    ensures IsInt32(r)
  {
    var negative := |s| > 0 && s[0] == '-';
    var body := if |s| > 0 && (s[0] == '-' || s[0] == '+') then s[1..] else s;
    var dot := IndexOf(body, ".");
    var whole := if dot == -1 then body else body[..dot];
    var fraction := if dot == -1 then [] else body[dot + 1..];
    if |whole| + |fraction| == 0
       || !(forall i :: 0 <= i < |whole| ==> '0' <= whole[i] <= '9')
       || !(forall i :: 0 <= i < |fraction| ==> '0' <= fraction[i] <= '9')
    then 0
    else
      var magnitude := DigitsValue(whole);
      if negative then (if magnitude > TWO_TO_31 then -TWO_TO_31 else 0 - magnitude)
      else (if magnitude >= TWO_TO_31 then TWO_TO_31 - 1 else magnitude)
  }

  /** Jackson reads back the decimal text of every int. */
  lemma ParseAsIntOfIntToString(n: int)
    requires IsInt32(n)
    ensures ParseAsInt(IntToString(n)) == n
  {
    var s := NatToString(if n < 0 then -n else n);
    assert DigitsValue(s) == if n < 0 then -n else n by {
      DigitsValueOfNatToString(if n < 0 then -n else n);
    }
    if n < 0 {
      assert ParseAsInt("-" + s) == n by { ParseAsIntOfNegative(s); }
    } else {
      assert ParseAsInt(s) == n by { ParseAsIntOfDigits(s); }
    }
  }

  /** Text that neither starts nor ends with a character up to U+0020 is read as it stands. */
  lemma ParseAsIntUnpadded(t: string)
    requires t == [] || (t[0] > ' ' && t[|t| - 1] > ' ')
    ensures ParseAsInt(t) == ParseTrimmed(t)
  {
    TrimUnique(t, 0, |t|);
    assert t[0..|t|] == t;
  }

  /** Unsigned digits go to Integer.parseInt: their value, or 0 beyond int. */
  lemma ParseAsIntOfDigits(s: string)
    requires AllDigits(s)
    ensures ParseAsInt(s) == if DigitsValue(s) < TWO_TO_31 then DigitsValue(s) else 0
  {
    ParseAsIntUnpadded(s);
    assert DigitsFrom(s, 0);
  }

  /** A '-' and digits: the negated value, or 0 below Integer.MIN_VALUE. */
  lemma ParseAsIntOfNegative(s: string)
    requires AllDigits(s)
    ensures ParseAsInt("-" + s) == if DigitsValue(s) <= TWO_TO_31 then 0 - DigitsValue(s) else 0
  {
    var t := "-" + s;
    assert ParseAsInt(t) == ParseTrimmed(t) by {
      ShapeOfSigned('-', s);
      ParseAsIntUnpadded(t);
    }
    assert ParseTrimmed(t) == ParseInt(t) by {
      ShapeOfSigned('-', s);
      NegativeDigits(t);
    }
  }

  lemma NegativeDigits(t: string)
    requires |t| > 1 && t[0] == '-' && AllDigits(t[1..])
    ensures ParseTrimmed(t) == ParseInt(t)
  {
    assert DigitsFrom(t, 1) by {
      forall i | 1 <= i < |t| ensures '0' <= t[i] <= '9' {
        assert t[i] == t[1..][i - 1];
      }
    }
  }

  /** One leading '+' is dropped before Integer.parseInt. */
  lemma ParseAsIntOfPlus(s: string)
    requires AllDigits(s)
    ensures ParseAsInt("+" + s) == if DigitsValue(s) < TWO_TO_31 then DigitsValue(s) else 0
  {
    var t := "+" + s;
    assert ParseAsInt(t) == ParseTrimmed(t) by {
      ShapeOfSigned('+', s);
      ParseAsIntUnpadded(t);
    }
    assert ParseTrimmed(t) == ParseInt(s) by {
      ShapeOfSigned('+', s);
      PlusDigits(t);
    }
  }

  lemma PlusDigits(t: string)
    requires |t| > 1 && t[0] == '+' && AllDigits(t[1..])
    ensures ParseTrimmed(t) == ParseInt(t[1..])
  {
    assert DigitsFrom(t[1..], 0);
  }

  /** A second '+' sends the text to Double.parseDouble instead, whose (int)
      cast saturates where Integer.parseInt would have failed. */
  lemma ParseAsIntOfDoublePlus(s: string)
    requires AllDigits(s)
    ensures ParseAsInt("++" + s) == if DigitsValue(s) < TWO_TO_31 then DigitsValue(s) else TWO_TO_31 - 1
  {
    var t := "++" + s;
    var u := "+" + s;
    assert ParseAsInt(t) == ParseTrimmed(t) by {
      assert t[0] == '+' && t[|t| - 1] == s[|s| - 1];
      ParseAsIntUnpadded(t);
    }
    assert ParseTrimmed(t) == ParseDoubleToInt(u) by {
      assert t[0] == '+' && t[1..] == u && u[0] == '+';
      TrimmedToDouble(t, u, 0);
    }
    assert u[0] == '+' && u[1..] == s;
    DoubleOfSignedDigits(u);
  }

  lemma DoubleOfSignedDigits(u: string)
    requires |u| > 1 && u[0] == '+' && AllDigits(u[1..])
    ensures ParseDoubleToInt(u) == if DigitsValue(u[1..]) < TWO_TO_31 then DigitsValue(u[1..]) else TWO_TO_31 - 1
  {
    DigitsHaveNoDot(u[1..]);
  }

  /** Decimal text is truncated toward zero and saturated at the int range. */
  lemma ParseAsIntOfDecimal(whole: string, fraction: string)
    requires AllDigits(whole) && AllDigits(fraction)
    ensures ParseAsInt(whole + "." + fraction)
            == if DigitsValue(whole) < TWO_TO_31 then DigitsValue(whole) else TWO_TO_31 - 1
  {
    var t := whole + "." + fraction;
    assert ParseAsInt(t) == ParseTrimmed(t) by {
      ShapeOfJoin(whole, ".", fraction);
      ParseAsIntUnpadded(t);
    }
    assert ParseTrimmed(t) == ParseDoubleToInt(t) by {
      ShapeOfJoin(whole, ".", fraction);
      TrimmedToDouble(t, t, |whole|);
    }
    DoubleOfDecimal(t, whole, fraction);
  }

  /** Negative decimal text is truncated toward zero too, saturating at Integer.MIN_VALUE. */
  lemma ParseAsIntOfNegativeDecimal(whole: string, fraction: string)
    requires AllDigits(whole) && AllDigits(fraction)
    ensures ParseAsInt("-" + whole + "." + fraction)
            == if DigitsValue(whole) <= TWO_TO_31 then 0 - DigitsValue(whole) else -TWO_TO_31
  {
    var t := "-" + whole + "." + fraction;
    assert ParseAsInt(t) == ParseTrimmed(t) by {
      ShapeOfSigned('-', whole);
      ShapeOfJoin("-" + whole, ".", fraction);
      ParseAsIntUnpadded(t);
    }
    assert ParseTrimmed(t) == ParseDoubleToInt(t) by {
      ShapeOfSigned('-', whole);
      ShapeOfJoin("-" + whole, ".", fraction);
      TrimmedNegativeToDouble(t, 1 + |whole|);
    }
    assert ParseDoubleToInt(t) == if DigitsValue(whole) <= TWO_TO_31 then 0 - DigitsValue(whole) else -TWO_TO_31 by {
      DropFirstOfFour('-', whole, ".", fraction);
      DoubleOfNegativeDecimal(t, whole, fraction);
    }
  }

  /** Trimmed text with a non-digit after its sign goes to Double.parseDouble. */
  lemma TrimmedToDouble(t: string, s: string, k: int)
    requires t != [] && t[0] != '-'
    requires s == if t[0] == '+' then t[1..] else t
    requires 0 <= k < |s| && !('0' <= s[k] <= '9')
    ensures ParseTrimmed(t) == ParseDoubleToInt(s)
  {
    assert !DigitsFrom(s, 0);
  }

  lemma TrimmedNegativeToDouble(t: string, k: int)
    requires t != [] && t[0] == '-'
    requires 1 <= k < |t| && !('0' <= t[k] <= '9')
    ensures ParseTrimmed(t) == ParseDoubleToInt(t)
  {
    assert !DigitsFrom(t, 1);
  }

  /** The '.' of whole + "." + fraction is its first, so the two parts are read apart. */
  lemma DecimalParts(whole: string, fraction: string)
    requires AllDigits(whole)
    ensures var body := whole + "." + fraction;
      && IndexOf(body, ".") == |whole|
      && body[..|whole|] == whole && body[|whole| + 1..] == fraction
  {
    assert '.' !in whole;
    FirstDelimiter(whole, '.', fraction);
  }

  lemma DoubleOfDecimal(t: string, whole: string, fraction: string)
    requires AllDigits(whole) && AllDigits(fraction)
    requires t == whole + "." + fraction
    ensures ParseDoubleToInt(t)
            == if DigitsValue(whole) < TWO_TO_31 then DigitsValue(whole) else TWO_TO_31 - 1
  {
    assert t[0] == whole[0];
    DecimalParts(whole, fraction);
  }

  lemma DoubleOfNegativeDecimal(t: string, whole: string, fraction: string)
    requires AllDigits(whole) && AllDigits(fraction)
    requires |t| > 0 && t[0] == '-' && t[1..] == whole + "." + fraction
    ensures ParseDoubleToInt(t)
            == if DigitsValue(whole) <= TWO_TO_31 then 0 - DigitsValue(whole) else -TWO_TO_31
  {
    DecimalParts(whole, fraction);
  }

  /** Leading blanks are ignored. */
  lemma ParseAsIntSkipsLeadingBlank(c: char, s: string)
    requires c <= ' '
    ensures ParseAsInt([c] + s) == ParseAsInt(s)
  {
    TrimSkipsLeadingBlank(c, s);
  }

  /** Jackson's `nf.textNode(s)` stored with ObjectNode.set: a null String becomes a JSON null. */
  function TextNode(s: Option<string>): (r: Json)
    ensures s.Some? ==> r == Str(s.value)
    ensures s.None? ==> r == Null
  {
    match s
    case Some(v) => Str(v)
    case None => Null
  }

  predicate IsInt32(n: int) {
    -TWO_TO_31 <= n < TWO_TO_31
  }

  /** Jackson reading a String property: text as is, numbers and booleans as
      their text, null as null; arrays and objects are refused. */
  function DecodeText(j: Json): (r: Result<Option<string>>)
    ensures r.Err? <==> j.Arr? || j.Obj?
    ensures j.Str? ==> r == Ok(Some(j.s))
    ensures j.Null? ==> r == Ok(None)
  {
    match j
    case Null => Ok(None)
    case Str(s) => Ok(Some(s))
    case Num(k) => Ok(Some(IntToString(k)))
    case Bool(b) => Ok(Some(if b then "true" else "false"))
    case _ => Err(DecodeFailure)
  }

  /** Jackson reading an Integer property: a number that fits in 32 bits, or text
      coerced to one (Jackson's default scalar coercion); anything else is refused. */
  function DecodeInt32(j: Json): (r: Result<int>)
    ensures r.Ok? ==> IsInt32(r.value)
    ensures j.Num? ==> (r.Ok? <==> IsInt32(j.n)) && (r.Ok? ==> r.value == j.n)
    ensures j.Str? ==> (r.Ok? <==> IntegerText(j.s).Some?) && (r.Ok? ==> r.value == IntegerText(j.s).value)
    ensures !j.Num? && !j.Str? ==> r.Err?
  {
    match j
    case Num(n) => if IsInt32(n) then Ok(n) else Err(DecodeFailure)
    case Str(text) => (if IntegerText(text).Some? then Ok(IntegerText(text).value) else Err(DecodeFailure))
    case _ => Err(DecodeFailure)
  }

  /** An optional sign followed by decimal digits: what Integer.parseInt and
      Long.parseLong accept. */
  predicate SignedDigits(t: string) {
    AllDigits(t) || (|t| > 1 && (t[0] == '+' || t[0] == '-') && AllDigits(t[1..]))
  }

  /** The value of signed digit text. */
  function SignedValue(t: string): int
    requires SignedDigits(t)
  {
    if AllDigits(t) then DigitsValue(t)
    else if t[0] == '-' then 0 - DigitsValue(t[1..])
    else DigitsValue(t[1..])
  }

  /** Jackson's Integer reader on text: the trimmed text must be signed digits
      whose value fits an int (a larger one is its "Overflow" error); any other
      text is not a valid Integer value. */
  function IntegerText(text: string): (r: Option<int>)
    ensures r.Some? ==> IsInt32(r.value)
  {
    var t := Trim(text);
    if SignedDigits(t) && IsInt32(SignedValue(t)) then Some(SignedValue(t)) else None
  }

  /** The decimal text of every int is read back as that int. */
  lemma IntegerTextOfIntToString(n: int)
    requires IsInt32(n)
    ensures IntegerText(IntToString(n)) == Some(n)
  {
    var s := NatToString(if n < 0 then -n else n);
    assert DigitsValue(s) == if n < 0 then -n else n by {
      DigitsValueOfNatToString(if n < 0 then -n else n);
    }
    if n < 0 {
      assert IntegerText("-" + s) == Some(n) by { IntegerTextOfNegative(s); }
    } else {
      assert IntegerText(s) == Some(n) by { IntegerTextOfDigits(s); }
    }
  }

  /** Unsigned digits: their value, refused beyond the int range. */
  lemma IntegerTextOfDigits(s: string)
    requires AllDigits(s)
    ensures IntegerText(s) == if DigitsValue(s) < TWO_TO_31 then Some(DigitsValue(s)) else None
  {
    TrimOfUnpadded(s);
  }

  /** A '-' and digits: the negated value, refused below the int range. */
  lemma IntegerTextOfNegative(s: string)
    requires AllDigits(s)
    ensures IntegerText("-" + s) == if DigitsValue(s) <= TWO_TO_31 then Some(0 - DigitsValue(s)) else None
  {
    var t := "-" + s;
    ShapeOfSigned('-', s);
    TrimOfUnpadded(t);
    assert !AllDigits(t);
  }

  /** A '+' and digits: the value, refused beyond the int range. */
  lemma IntegerTextOfPlus(s: string)
    requires AllDigits(s)
    ensures IntegerText("+" + s) == if DigitsValue(s) < TWO_TO_31 then Some(DigitsValue(s)) else None
  {
    var t := "+" + s;
    ShapeOfSigned('+', s);
    TrimOfUnpadded(t);
    assert !AllDigits(t);
  }

  /** Leading blanks are ignored. */
  lemma IntegerTextSkipsLeadingBlank(c: char, s: string)
    requires c <= ' '
    ensures IntegerText([c] + s) == IntegerText(s)
  {
    TrimSkipsLeadingBlank(c, s);
  }

  /** Where the Integer reader accepts text, asInt reads the same value from it. */
  lemma IntegerTextAgreesWithAsInt(text: string)
    requires IntegerText(text).Some?
    ensures ParseAsInt(text) == IntegerText(text).value
  {
    var t := Trim(text);
    if AllDigits(t) {
      assert DigitsFrom(t, 0);
    } else if t[0] == '-' {
      NegativeDigits(t);
    } else {
      PlusDigits(t);
    }
  }

  /** A String property that is absent keeps its default, null. */
  function TextField(m: map<string, Json>, key: string): (r: Result<Option<string>>)
    ensures key !in m ==> r == Ok(None)
    ensures key in m ==> r == DecodeText(m[key])
  {
    if key in m then DecodeText(m[key]) else Ok(None)
  }

  /** An Integer property that is absent keeps the default the constructor gave it. */
  function IntField(m: map<string, Json>, key: string, default: int): (r: Result<int>)
    ensures key !in m ==> r == Ok(default)
    ensures key in m ==> r == DecodeInt32(m[key])
  {
    if key in m then DecodeInt32(m[key]) else Ok(default)
  }
}
