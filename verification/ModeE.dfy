/**
 IEC 62056-21 mode E negotiation: the identification message (section 6.3.2),
 baud rate selection, and the acknowledgement (section 6.3.3).

 The grammar is the code's own: the mode marker is the two characters
 backslash and W, wherever they first occur.
 */
module ModeE {
  import opened Basics

  /** A C++ enumeration: 0 to 6 are known, a cast can produce any other value. */
  type BaudRate = int

  const BAUD_300: BaudRate := 0

  predicate IsKnown(rate: BaudRate) {
    0 <= rate <= 6
  }

  datatype Identification = Identification(raw: string, supportsModeE: bool, maxBaudRate: BaudRate)

  const BLANK := Identification("", false, BAUD_300)

  function RateOfCode(code: char): Option<BaudRate> {
    match code
    case '0' => Some(0)
    case '1' => Some(1)
    case '2' => Some(2)
    case '3' => Some(3)
    case '4' => Some(4)
    case '5' => Some(5)
    case '6' => Some(6)
    case _ => None
  }

  function CodeOfRate(rate: BaudRate): char {
    if rate == 0 then '0' else if rate == 1 then '1' else if rate == 2 then '2' else if rate == 3 then '3'
    else if rate == 4 then '4' else if rate == 5 then '5' else if rate == 6 then '6' else '?'
  }

  function BitsPerSecond(rate: BaudRate): nat {
    if rate == 0 then 300 else if rate == 1 then 600 else if rate == 2 then 1200 else if rate == 3 then 2400
    else if rate == 4 then 4800 else if rate == 5 then 9600 else if rate == 6 then 19200 else 0
  }

  // ---------- the identification message ----------

  predicate MarkerAt(input: string, i: int) {
    0 <= i && i + 1 < |input| && input[i] == '\\' && input[i + 1] == 'W'
  }

  ghost predicate FirstMarker(input: string, i: int) {
    MarkerAt(input, i) && forall j :: 0 <= j < i ==> !MarkerAt(input, j)
  }

  /** The message as a grammar: slash, three characters, a baud code, anything, CR LF. */
  ghost predicate WellFormed(input: string) {
    && |input| >= 7
    && input[0] == '/'
    && RateOfCode(input[4]).Some?
    && input[|input| - 2..] == "\r\n"
  }

  /** What is checked before the baud code: only then is the input remembered. */
  ghost predicate Framed(input: string) {
    |input| >= 5 && input[0] == '/' && input[|input| - 2..] == "\r\n"
  }

  /** The character after the first marker is '2'. */
  ghost predicate OffersModeE(input: string) {
    exists i :: FirstMarker(input, i) && i + 2 < |input| && input[i + 2] == '2'
  }

  /** std::string::find of the marker. */
  method FindMarker(input: string) returns (marker: Option<nat>)
    ensures marker.Some? ==> FirstMarker(input, marker.value)
    ensures marker.None? ==> forall j :: !MarkerAt(input, j)
  {
    for i := 0 to |input|
      invariant forall j :: 0 <= j < i ==> !MarkerAt(input, j)
    {
      if MarkerAt(input, i) {
        return Some(i);
      }
    }
    return None;
  }

  /** In a message that ends CR LF a marker is never at the end. */
  lemma MarkerNeverAtEnd(input: string, i: int)
    requires |input| >= 2 && input[|input| - 2..] == "\r\n" && MarkerAt(input, i)
    ensures i + 2 < |input|
  {
  }

  lemma FirstMarkerUnique(input: string, i: int, j: int)
    requires FirstMarker(input, i) && FirstMarker(input, j)
    ensures i == j
  {
  }

  method ParseIdentification(input: string) returns (status: Status, identification: Identification)
    ensures status == if WellFormed(input) then Ok else InvalidArgument
    ensures WellFormed(input) ==>
              identification == Identification(input, OffersModeE(input), RateOfCode(input[4]).value)
    ensures !WellFormed(input) ==>
              identification == Identification(if Framed(input) then input else "", false, BAUD_300)
  {
    identification := BLANK;
    if |input| < 5 || input[0] != '/' {
      return InvalidArgument, identification;
    }
    if input[|input| - 2] != '\r' || input[|input| - 1] != '\n' {
      assert input[|input| - 2..][0] == input[|input| - 2];
      assert input[|input| - 2..][1] == input[|input| - 1];
      return InvalidArgument, identification;
    }
    assert input[|input| - 2..] == "\r\n";
    identification := identification.(raw := input);
    var rate := RateOfCode(input[4]);
    if rate.None? {
      return InvalidArgument, identification;
    }
    identification := identification.(maxBaudRate := rate.value);
    var marker := FindMarker(input);
    if marker.None? {
      return Ok, identification;
    }
    MarkerNeverAtEnd(input, marker.value);
    identification := identification.(supportsModeE := input[marker.value + 2] == '2');
    assert identification.supportsModeE == OffersModeE(input) by {
      if OffersModeE(input) {
        var i :| FirstMarker(input, i) && i + 2 < |input| && input[i + 2] == '2';
        FirstMarkerUnique(input, i, marker.value);
      }
    }
    return Ok, identification;
  }

  // ---------- selection and acknowledgement ----------

  method SelectBaudRate(identification: Identification, requestedMax: BaudRate)
    returns (status: Status, selected: BaudRate)
    ensures status == Ok <==> identification.supportsModeE && IsKnown(requestedMax)
    ensures status != Ok ==> status == UnsupportedFeature && selected == BAUD_300
    ensures status == Ok ==>
              && selected in {identification.maxBaudRate, requestedMax}
              && selected <= identification.maxBaudRate && selected <= requestedMax
  {
    selected := BAUD_300;
    if !identification.supportsModeE || !IsKnown(requestedMax) {
      return UnsupportedFeature, selected;
    }
    selected := if identification.maxBaudRate < requestedMax then identification.maxBaudRate else requestedMax;
    return Ok, selected;
  }

  /** An acknowledgement: ACK, '2', the baud code Z, '2', CR, LF. */
  ghost predicate IsAck(message: string, rate: BaudRate) {
    |message| == 6 && message[0] == 6 as char && message[1] == '2' && RateOfCode(message[2]) == Some(rate)
    && message[3..] == "2\r\n"
  }

  method BuildAck(rate: BaudRate) returns (status: Status, output: string)
    ensures status == if IsKnown(rate) then Ok else InvalidArgument
    ensures if IsKnown(rate) then IsAck(output, rate) else output == ""
  {
    output := "";
    if !IsKnown(rate) {
      return InvalidArgument, output;
    }
    output := output + [6 as char];
    output := output + ['2'];
    output := output + [CodeOfRate(rate)];
    output := output + ['2'];
    output := output + ['\r'];
    output := output + ['\n'];
    CodesRoundTrip(rate);
    assert output[3..] == "2\r\n";
    return Ok, output;
  }

  /** The two code tables are inverse to each other, and no other character is a code. */
  lemma CodesRoundTrip(rate: BaudRate)
    ensures RateOfCode(CodeOfRate(rate)) == if IsKnown(rate) then Some(rate) else None
    ensures forall code :: RateOfCode(code).Some? ==>
              IsKnown(RateOfCode(code).value) && CodeOfRate(RateOfCode(code).value) == code
  {
  }

  function Power2(n: nat): nat {
    if n == 0 then 1 else 2 * Power2(n - 1)
  }

  /** The tables in closed form: rate k has the digit k for its code, and 300 * 2^k bits per second. */
  lemma TablesInClosedForm(rate: BaudRate)
    ensures IsKnown(rate) <==> 300 <= BitsPerSecond(rate)
    ensures IsKnown(rate) ==> BitsPerSecond(rate) == 300 * Power2(rate) && CodeOfRate(rate) as int == '0' as int + rate
    ensures forall code :: RateOfCode(code) ==
              if '0' <= code <= '6' then Some(code as int - '0' as int) else None
  {
    assert Power2(0) == 1 && Power2(1) == 2 && Power2(2) == 4 && Power2(3) == 8;
    assert Power2(4) == 16 && Power2(5) == 32 && Power2(6) == 64;
  }

  /** A known rate of higher rank is faster, and twice as fast per rank. */
  lemma RanksAreSpeeds(a: BaudRate, b: BaudRate)
    requires IsKnown(a) && IsKnown(b)
    ensures a < b <==> BitsPerSecond(a) < BitsPerSecond(b)
    ensures b == a + 1 ==> BitsPerSecond(b) == 2 * BitsPerSecond(a)
  {
  }

  /**
   The whole negotiation: with a well-formed mode E identification and a known
   request it always ends in an acknowledgement of the slower of the two rates.
   */
  method Negotiate(input: string, requestedMax: BaudRate) returns (status: Status, ack: string)
    ensures status == Ok <==> WellFormed(input) && OffersModeE(input) && IsKnown(requestedMax)
    ensures status == Ok ==>
              var meter := RateOfCode(input[4]).value;
              exists rate ::
                && IsAck(ack, rate)
                && rate == (if meter < requestedMax then meter else requestedMax)
                && BitsPerSecond(rate) == Min(BitsPerSecond(meter), BitsPerSecond(requestedMax))
    ensures status != Ok ==> ack == ""
  {
    ack := "";
    var identification;
    status, identification := ParseIdentification(input);
    if status != Ok {
      return status, ack;
    }
    var selected;
    status, selected := SelectBaudRate(identification, requestedMax);
    if status != Ok {
      return status, ack;
    }
    CodesRoundTrip(selected);
    RanksAreSpeeds(identification.maxBaudRate, requestedMax);
    status, ack := BuildAck(selected);
    assert IsAck(ack, selected);
  }
}
