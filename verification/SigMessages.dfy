/** The configuration messages (src/mesh/proto/sig.rs) and their status octet. */
module SigMessages {
  import opened Common
  import opened Proto

  /** The named status octets 0x00 to 0x11 in order; every other octet is `RFU`. */
  datatype Status = Known(code: u8) | RFU

  function StatusFrom(n: u8): Status {
    if n <= 0x11 then Known(n) else RFU
  }

  predicate IsOk(s: Status) {
    s == Known(0x00)
  }

  /** Only octet zero is a success, and the named octets give different statuses. */
  lemma {:induction false} StatusesDiffer(a: u8, b: u8)
    ensures IsOk(StatusFrom(a)) <==> a == 0x00
    ensures StatusFrom(a) == StatusFrom(b) <==> a == b || (a > 0x11 && b > 0x11)
  {
  }

  const BIND_OPCODE := Sig2(0x803d)

  datatype ConfigModelAppBind = ConfigModelAppBind(address: u16, appKeyIndex: u16, model: ModelIdentifier)

  datatype ConfigModelAppStatus = ConfigModelAppStatus(
    status: Status, address: u16, appKeyIndex: u16, model: ModelIdentifier)

  datatype ConfigAppKeyStatus = ConfigAppKeyStatus(status: Status, netKeyIndex: u16, appKeyIndex: u16)

  function BindBytes(b: ConfigModelAppBind): (r: Bytes)
    ensures |r| == if b.model.SigModel? then 6 else 8
  {
    PutU16Le(b.address) + PutU16Le(b.appKeyIndex) + ModelIdBytes(b.model)
  }

  /** `put_payload`, appending to the buffer it is given. */
  method PutBind(buf: Bytes, b: ConfigModelAppBind) returns (out: Bytes)
    ensures out == buf + BindBytes(b)
  {
    out := buf + [Low(b.address), High(b.address)];
    out := out + [Low(b.appKeyIndex), High(b.appKeyIndex)];
    out := PutModelId(out, b.model);
  }

  // ----- parsers: what is left of the buffer, and the value -----

  function TakeU8(buf: Bytes): Option<(Bytes, u8)> {
    if |buf| < 1 then None else Some((buf[1..], buf[0]))
  }

  function TakeU16Le(buf: Bytes): Option<(Bytes, u16)> {
    if |buf| < 2 then None else Some((buf[2..], Join(buf[1], buf[0])))
  }

  /** `ConfigModelAppStatus::parse_payload`; reading a model identifier always takes the whole rest. */
  function ParseModelAppStatus(buf: Bytes): Option<ConfigModelAppStatus> {
    match TakeU8(buf)
    case None => None
    case Some((b1, n)) =>
      match TakeU16Le(b1)
      case None => None
      case Some((b2, address)) =>
        match TakeU16Le(b2)
        case None => None
        case Some((b3, key)) =>
          match ReadModelId(b3)
          case None => None
          case Some(model) => Some(ConfigModelAppStatus(StatusFrom(n), address, key, model))
  }

  /** `ConfigAppKeyStatus::parse_payload`, which refuses anything left over. */
  function ParseAppKeyStatus(buf: Bytes): Option<ConfigAppKeyStatus> {
    match TakeU8(buf)
    case None => None
    case Some((b1, n)) =>
      match UnpackKeyIndex(b1)
      case None => None
      case Some((rest, keys)) =>
        if rest == [] then Some(ConfigAppKeyStatus(StatusFrom(n), keys.0, keys.1)) else None
  }

  lemma {:induction false} BindOpcode()
    ensures WellFormed(BIND_OPCODE) && PutOpcode(BIND_OPCODE) == [0x80, 0x3d]
  {
  }

  /** The octets of a bind request: 0x80 and 0x3d, the address, the key index and the model, low octets first but for a
      SIG model. */
  predicate IsBind(w: Bytes, b: ConfigModelAppBind) {
    && |w| == (if b.model.SigModel? then 8 else 10)
    && w[0] == 0x80 && w[1] == 0x3d
    && b.address as int == Number16(w, 2) && b.appKeyIndex as int == Number16(w, 4)
    && match b.model
       case SigModel(n) => n as int == 0x100 * (w[6] as int) + (w[7] as int)
       case VendorModel(c, m) => c as int == Number16(w, 6) && m as int == Number16(w, 8)
  }

  lemma {:induction false} BindOctets(b: ConfigModelAppBind)
    ensures IsBind([0x80, 0x3d] + BindBytes(b), b)
  {
    var w := [0x80, 0x3d] + BindBytes(b);
    NumberAt(w, 2, b.address);
    NumberAt(w, 4, b.appKeyIndex);
    ModelIdOctets(b.model);
    assert w[6..] == ModelIdBytes(b.model);
    ModelIdAt(w, b.model);
  }

  lemma {:induction false} ModelIdAt(w: Bytes, id: ModelIdentifier)
    requires |w| >= 6 && IsModelId(w[6..], id)
    ensures match id
      case SigModel(n) => |w| == 8 && n as int == 0x100 * (w[6] as int) + (w[7] as int)
      case VendorModel(c, m) => |w| == 10 && c as int == Number16(w, 6) && m as int == Number16(w, 8)
  {
    assert forall i :: 0 <= i < |w| - 6 ==> w[6..][i] == w[6 + i];
  }

  /** A bind request as sent is one the receiver's `Message::parse` reads back, and it is always small enough. */
  method EncodeBind(b: ConfigModelAppBind) returns (r: Option<Bytes>)
    ensures r.Some? && IsBind(r.value, b)
    ensures Parse(r.value) == Some(Message(BIND_OPCODE, BindBytes(b)))
  {
    var payload := PutBind([], b);
    assert payload == BindBytes(b);
    BindOpcode();
    BindOctets(b);
    r := Encode(BIND_OPCODE, payload);
  }

  /** A node that answers a bind by echoing its fields behind a status octet is always understood; the answer
      names the same model exactly when the model is a vendor model or a SIG model with two equal octets. */
  lemma {:induction false} EchoedBindStatus(n: u8, b: ConfigModelAppBind)
    ensures var r := ParseModelAppStatus([n] + BindBytes(b));
      && r.Some? && (IsOk(r.value.status) <==> n == 0)
      && r.value.address == b.address && r.value.appKeyIndex == b.appKeyIndex
      && (r.value.model == b.model <==> (b.model.SigModel? ==> High(b.model.id) == Low(b.model.id)))
  {
    var buf := [n] + BindBytes(b);
    assert buf[1..] == BindBytes(b);
    BindFields(b);
    ModelIdRoundTrip(b.model);
  }

  lemma {:induction false} BindFields(b: ConfigModelAppBind)
    ensures var keyed := PutU16Le(b.appKeyIndex) + ModelIdBytes(b.model);
      && TakeU16Le(BindBytes(b)) == Some((keyed, b.address))
      && TakeU16Le(keyed) == Some((ModelIdBytes(b.model), b.appKeyIndex))
  {
    TakeBack(b.address, PutU16Le(b.appKeyIndex) + ModelIdBytes(b.model));
    TakeBack(b.appKeyIndex, ModelIdBytes(b.model));
    assert BindBytes(b) == PutU16Le(b.address) + (PutU16Le(b.appKeyIndex) + ModelIdBytes(b.model));
  }

  lemma {:induction false} TakeBack(x: u16, rest: Bytes)
    ensures TakeU16Le(PutU16Le(x) + rest) == Some((rest, x))
  {
    SplitJoin(x);
    assert (PutU16Le(x) + rest)[2..] == rest;
  }

  /** The accepted bind answers are those of seven or nine octets; two of them read the same exactly when they
      agree in every octet but a reserved status. */
  lemma {:induction false} ModelAppStatusAccepts(buf: Bytes, other: Bytes)
    ensures ParseModelAppStatus(buf).Some? <==> |buf| == 7 || |buf| == 9
    ensures ParseModelAppStatus(buf).Some? && other != [] ==>
      (ParseModelAppStatus(buf) == ParseModelAppStatus(other)
       <==> buf[1..] == other[1..] && StatusFrom(buf[0]) == StatusFrom(other[0]))
  {
    if ParseModelAppStatus(buf).Some? && ParseModelAppStatus(buf) == ParseModelAppStatus(other) {
      ModelAppFields(buf);
      ModelAppFields(other);
    }
  }

  /** Every octet behind the status comes back from the fields. */
  lemma {:induction false} ModelAppFields(buf: Bytes)
    requires ParseModelAppStatus(buf).Some?
    ensures var r := ParseModelAppStatus(buf).value;
      && |buf| == (if r.model.SigModel? then 7 else 9)
      && buf[1..] == PutU16Le(r.address) + PutU16Le(r.appKeyIndex)
                     + match r.model
                       case SigModel(n) => PutU16Le(n)
                       case VendorModel(c, m) => PutU16Le(c) + PutU16Le(m)
  {
    TakeForth(buf[1..]);
    TakeForth(buf[1..][2..]);
    var id := buf[1..][2..][2..];
    assert id == match ReadModelId(id).value
                 case SigModel(n) => PutU16Le(n)
                 case VendorModel(c, m) => PutU16Le(c) + PutU16Le(m) by {
      JoinSplit(id[1], id[0]);
      if |id| == 4 {
        JoinSplit(id[3], id[2]);
      }
    }
  }

  lemma {:induction false} TakeForth(buf: Bytes)
    requires |buf| >= 2
    ensures var (rest, x) := TakeU16Le(buf).value; buf == PutU16Le(x) + rest
  {
    JoinSplit(buf[1], buf[0]);
  }

  /** The accepted key answers are those of four octets, and they tell the packed indexes apart. */
  lemma {:induction false} AppKeyStatusAccepts(buf: Bytes)
    ensures ParseAppKeyStatus(buf).Some? <==> |buf| == 4
    ensures |buf| == 4 ==>
      var r := ParseAppKeyStatus(buf).value;
      && r.status == StatusFrom(buf[0]) && (IsOk(r.status) <==> buf[0] == 0x00)
      && r.netKeyIndex < 0x1000 && r.appKeyIndex < 0x1000
      && buf[1..] == PackKeyIndex(r.netKeyIndex, r.appKeyIndex)
  {
    if |buf| == 4 {
      UnpackThenPack(buf[1..]);
    }
  }
}
