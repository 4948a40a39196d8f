/** The QR-code route `GET /?seatNumber=…&date=…`: query validation, the
    seat-number parse, the already-booked check against the order
    collection, and the signed payload `<seatNumber>:<date>.<signature>`.
    The HMAC is a parameter; the image encoding of the payload is left
    out. */
module QrCodes {
  import opened Wrappers
  import opened Json
  import opened Text
  import opened SeatStore
  import opened Orders

  datatype QrOutcome =
    | QrRejected(error: string)
    | AlreadyBooked
    | QrFailed(error: string)
    | QrCode(payload: string)
  {
    function Status(): int
    {
      match this
      case QrRejected(_) => 400
      case AlreadyBooked => 409
      case QrFailed(_) => 500
      case QrCode(_) => 200
    }
  }

  /** The number of leading letters of `s`. */
  function LetterPrefix(s: string): (k: nat)
    ensures k <= |s| && IsLetters(s[..k])
    ensures k < |s| ==> !IsLetter(s[k])
  {
    if |s| == 0 || !IsLetter(s[0]) then 0
    else
      var k := 1 + LetterPrefix(s[1..]);
      assert forall i :: 1 <= i < k ==> s[..k][i] == s[1..][..k - 1][i - 1];
      k
  }

  /** `/^([A-Za-z]+)(\d+)$/`: a split into a letter run and a digit run. */
  predicate SplitsAt(s: string, k: int)
  {
    0 < k < |s| && IsLetters(s[..k]) && IsDigits(s[k..])
  }

  /** The letter run ends where the digits begin, so a seat number splits
      in at most one place. */
  lemma SplitUnique(s: string)
    ensures forall j :: SplitsAt(s, j) ==> j == LetterPrefix(s)
  {
    var k := LetterPrefix(s);
    forall j | SplitsAt(s, j)
      ensures j == k
    {
      SliceFacts(s, j, k);
      SliceFacts(s, k, j);
      if j < k {
        assert false;
      } else if j > k {
        assert false;
      }
    }
  }

  /** Indexing into a prefix or a suffix of `s`. */
  lemma SliceFacts(s: string, i: int, k: int)
    ensures 0 <= i < |s| ==> s[i..][0] == s[i]
    ensures 0 <= i < k <= |s| ==> s[..k][i] == s[i]
    ensures 0 <= k < i < |s| ==> s[i] in s[k + 1..]
  {
    if 0 <= k < i < |s| {
      assert s[k + 1..][i - k - 1] == s[i];
    }
  }

  /** The seat a seat number names: the letter run is the row label and
      the digit run is the seat number, read in decimal. */
  function ParseSeatNumber(s: string): (r: Option<SeatRef>)
    ensures r.Some? <==> exists k :: SplitsAt(s, k)
    ensures forall k :: SplitsAt(s, k) ==> r == Some(SeatRef(s[..k], ParseDigits(s[k..])))
  {
    var k := LetterPrefix(s);
    SplitUnique(s);
    if SplitsAt(s, k) then Some(SeatRef(s[..k], ParseDigits(s[k..]))) else None
  }

  /** The seat number a ticket prints: row label, then the number. */
  function SeatNumber(r: SeatRef): string
    requires r.number >= 0
  {
    r.rowLabel + NatToDecimal(r.number)
  }

  /** Parsing a printed seat number gives the seat back. */
  lemma ParseSeatNumberRoundTrip(r: SeatRef)
    requires r.number >= 0 && |r.rowLabel| > 0 && IsLetters(r.rowLabel)
    ensures ParseSeatNumber(SeatNumber(r)) == Some(r)
  {
    var s := SeatNumber(r);
    var k := |r.rowLabel|;
    assert s[..k] == r.rowLabel && s[k..] == NatToDecimal(r.number);
    ParseNatToDecimal(r.number);
    assert SplitsAt(s, k);
  }

  /** A seat number without a leading zero in its digits is the printed
      form of the seat it parses to. */
  lemma SeatNumberOfParse(s: string, k: nat)
    requires SplitsAt(s, k) && (s[k] != '0' || k == |s| - 1)
    ensures ParseSeatNumber(s).Some?
    ensures ParseSeatNumber(s).value.number >= 0
    ensures SeatNumber(ParseSeatNumber(s).value) == s
  {
    assert s[k..][0] == s[k];
    DecimalOfParse(s[k..]);
    assert s == s[..k] + s[k..];
  }

  /** Some order for `date` lists the seat: the `findOne` with
      `$elemMatch` on row label and number, paid or not. */
  predicate Booked(orders: seq<Order>, date: string, r: SeatRef)
  {
    exists i, j :: (0 <= i < |orders| && 0 <= j < |orders[i].selectedSeats|
      && orders[i].selectedDate == date && RefOf(orders[i].selectedSeats[j]) == r)
  }

  /** The payload the code carries: `${seatNumber}:${date}` and the hex
      signature after a `.`. */
  function QrPayload(seatNumber: string, date: string, signature: string): string
  {
    seatNumber + ":" + date + "." + signature
  }

  /** The route handler. `secret` is the configured QR-code secret and
      `mac` the keyed hash the signature is computed with. */
  function GenerateQrCode(orders: seq<Order>, seatNumber: Option<Value>, date: Option<Value>,
                          secret: Option<string>, mac: (string, string) -> seq<bv8>): (r: QrOutcome)
    ensures !Truthy(seatNumber) || !IsString(seatNumber) ==> r == QrRejected("Missing seatNumber")
    ensures Truthy(seatNumber) && IsString(seatNumber) && (!Truthy(date) || !IsString(date))
      ==> r == QrRejected("Missing date")
    ensures Truthy(seatNumber) && IsString(seatNumber) && Truthy(date) && IsString(date) ==>
      (ParseSeatNumber(seatNumber.value.s).None? <==> r == QrRejected("Invalid seat number format"))
    // A free seat gets a code exactly when a secret is configured.
    ensures (Truthy(seatNumber) && IsString(seatNumber) && Truthy(date) && IsString(date)
             && ParseSeatNumber(seatNumber.value.s).Some?
             && !Booked(orders, date.value.s, ParseSeatNumber(seatNumber.value.s).value)) ==>
      (r.QrFailed? <==> secret.None? || secret.value == "") && (r.QrCode? <==> secret.Some? && secret.value != "")
    ensures r.QrCode? || r.AlreadyBooked? || r.QrFailed? ==>
      IsString(seatNumber) && IsString(date) && ParseSeatNumber(seatNumber.value.s).Some?
    // A seat any order of that date lists gets no code, whatever the secret.
    ensures r.AlreadyBooked? <==>
      && IsString(seatNumber) && IsString(date) && Truthy(date) && ParseSeatNumber(seatNumber.value.s).Some?
      && Booked(orders, date.value.s, ParseSeatNumber(seatNumber.value.s).value)
    ensures r.QrFailed? ==> r.error == "QRCODE_SECRET not configured" && (secret.None? || secret.value == "")
    ensures r.QrCode? ==>
      && secret.Some? && secret.value != ""
      && !Booked(orders, date.value.s, ParseSeatNumber(seatNumber.value.s).value)
      && var payload := seatNumber.value.s + ":" + date.value.s;
      r.payload == QrPayload(seatNumber.value.s, date.value.s, HexEncode(mac(secret.value, payload)))
  {
    if !Truthy(seatNumber) || !IsString(seatNumber) then QrRejected("Missing seatNumber")
    else if !Truthy(date) || !IsString(date) then QrRejected("Missing date")
    else
      var seat := seatNumber.value.s;
      var day := date.value.s;
      match ParseSeatNumber(seat)
      case None => QrRejected("Invalid seat number format")
      case Some(r) =>
        if Booked(orders, day, r) then AlreadyBooked
        else if secret.None? || secret.value == "" then QrFailed("QRCODE_SECRET not configured")
        else
          var payload := seat + ":" + day;
          QrCode(QrPayload(seat, day, HexEncode(mac(secret.value, payload))))
  }

  /** The index of the last occurrence of `c` in `s`. */
  function LastIndexOf(s: string, c: char): (r: Option<nat>)
    ensures r.None? <==> c !in s
    ensures r.Some? ==> r.value < |s| && s[r.value] == c && c !in s[r.value + 1..]
  {
    if |s| == 0 then None
    else if s[|s| - 1] == c then Some(|s| - 1)
    else
      var r := LastIndexOf(s[..|s| - 1], c);
      assert s == s[..|s| - 1] + [s[|s| - 1]];
      assert r.Some? ==> s[r.value + 1..] == s[..|s| - 1][r.value + 1..] + [s[|s| - 1]];
      r
  }

  /** The index of the first occurrence of `c` in `s`. */
  function IndexOf(s: string, c: char): (r: Option<nat>)
    ensures r.None? <==> c !in s
    ensures r.Some? ==> r.value < |s| && s[r.value] == c && c !in s[..r.value]
  {
    if |s| == 0 then None
    else if s[0] == c then Some(0)
    else
      var r := IndexOf(s[1..], c);
      assert s == [s[0]] + s[1..];
      assert r.Some? ==> s[..r.value + 1] == [s[0]] + s[1..][..r.value];
      match r
      case None => None
      case Some(i) => Some(i + 1)
  }

  /** Reading a payload back: the signature is what follows the last `.`,
      the seat number what precedes the first `:` of the rest. */
  function ReadPayload(qr: string): (r: Option<(string, string, string)>)
  {
    match LastIndexOf(qr, '.')
    case None => None
    case Some(dot) =>
      var signed := qr[..dot];
      match IndexOf(signed, ':')
      case None => None
      case Some(colon) => Some((signed[..colon], signed[colon + 1..], qr[dot + 1..]))
  }

  /** The last `c` of `a + [c] + b` is the one after `a` when `b` has none. */
  lemma LastIndexOfJoin(a: string, c: char, b: string)
    requires c !in b
    ensures LastIndexOf(a + [c] + b, c) == Some(|a|)
  {
    var s := a + [c] + b;
    var r := LastIndexOf(s, c).value;
    SliceFacts(s, |a|, r);
    JoinFacts(a, c, b, r);
    if r < |a| {
      assert false;
    } else if r > |a| {
      assert false;
    }
  }

  /** Indexing into `a + [c] + b`. */
  lemma JoinFacts(a: string, c: char, b: string, i: int)
    ensures (a + [c] + b)[|a|] == c
    ensures 0 <= i < |a| ==> (a + [c] + b)[i] == a[i]
    ensures |a| < i < |a| + 1 + |b| ==> (a + [c] + b)[i] == b[i - |a| - 1]
  {
  }

  /** The first `c` of `a + [c] + b` is the one after `a` when `a` has none. */
  lemma IndexOfJoin(a: string, c: char, b: string)
    requires c !in a
    ensures IndexOf(a + [c] + b, c) == Some(|a|)
  {
    var s := a + [c] + b;
    var r := IndexOf(s, c).value;
    SliceFacts(s, |a|, r);
    JoinFacts(a, c, b, r);
    if r < |a| {
      assert false;
    } else if r > |a| {
      assert false;
    }
  }

  /** A verifier recovers exactly the seat number, date and signature that
      went into a code: a hex signature has no `.` and a valid seat number
      has no `:`. */
  lemma ReadPayloadRoundTrip(seatNumber: string, date: string, signature: string)
    requires ParseSeatNumber(seatNumber).Some?
    requires forall i :: 0 <= i < |signature| ==> IsHexDigit(signature[i])
    ensures ReadPayload(QrPayload(seatNumber, date, signature)) == Some((seatNumber, date, signature))
  {
    var signed := seatNumber + ":" + date;
    var qr := QrPayload(seatNumber, date, signature);
    assert qr == signed + "." + signature;
    assert '.' !in signature;
    LastIndexOfJoin(signed, '.', signature);
    assert qr[..|signed|] == signed && qr[|signed| + 1..] == signature;
    var k :| SplitsAt(seatNumber, k);
    assert seatNumber == seatNumber[..k] + seatNumber[k..];
    assert ':' !in seatNumber;
    IndexOfJoin(seatNumber, ':', date);
    assert signed[..|seatNumber|] == seatNumber && signed[|seatNumber| + 1..] == date;
  }

  /** A code issued for a seat is issued only while no order lists it; once
      an order for it exists, every later request is refused with 409. */
  lemma BookedSeatGetsNoCode(orders: seq<Order>, o: Order, k: nat, secret: Option<string>,
                             mac: (string, string) -> seq<bv8>)
    requires k < |o.selectedSeats| && o.selectedSeats[k].number >= 0
    requires |o.selectedSeats[k].rowLabel| > 0 && IsLetters(o.selectedSeats[k].rowLabel)
    ensures GenerateQrCode(orders + [o], Some(Str(SeatNumber(RefOf(o.selectedSeats[k])))),
                           Some(Str(o.selectedDate)), secret, mac) == AlreadyBooked
            || o.selectedDate == ""
  {
    var r := RefOf(o.selectedSeats[k]);
    ParseSeatNumberRoundTrip(r);
    var all := orders + [o];
    assert all[|orders|] == o;
    assert Booked(all, o.selectedDate, r);
  }

  /** A seat no order of that date lists, asked for under its printed
      number with a secret configured, gets a code, and reading the code
      back gives the seat number, the date and the signature over both. */
  lemma FreeSeatGetsCode(orders: seq<Order>, r: SeatRef, date: string, secret: string,
                         mac: (string, string) -> seq<bv8>)
    requires r.number >= 0 && |r.rowLabel| > 0 && IsLetters(r.rowLabel)
    requires date != "" && secret != ""
    requires !Booked(orders, date, r)
    ensures var code := GenerateQrCode(orders, Some(Str(SeatNumber(r))), Some(Str(date)), Some(secret), mac);
      && code.QrCode?
      && ReadPayload(code.payload)
         == Some((SeatNumber(r), date, HexEncode(mac(secret, SeatNumber(r) + ":" + date))))
  {
    var seat := SeatNumber(r);
    var signature := HexEncode(mac(secret, seat + ":" + date));
    ParseSeatNumberRoundTrip(r);
    assert GenerateQrCode(orders, Some(Str(seat)), Some(Str(date)), Some(secret), mac)
        == QrCode(QrPayload(seat, date, signature));
    ReadPayloadRoundTrip(seat, date, signature);
  }
}
