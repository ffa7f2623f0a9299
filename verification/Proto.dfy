/** Access-message codec of the mesh (src/mesh/proto): opcodes of one, two or three octets (section 3.7.3.1
    of the Bluetooth Mesh Profile), packed key indexes (section 4.3.1.1) and model identifiers. */
module Proto {
  import opened Common
  import BitValues

  type u8 = bv8
  type u16 = bv16
  type Bytes = seq<u8>

  const MESH_PACKET_MAX_SIZE := 380

  datatype Opcode =
    | Sig1(op: u8)
    | Sig2(op2: u16)
    | Vendor(code: u8, vendor: u16)

  datatype Message = Message(opcode: Opcode, payload: Bytes)

  datatype ModelIdentifier =
    | SigModel(id: u16)
    | VendorModel(companyId: u16, modelId: u16)

  function Low(x: u16): u8 {
    (x & 0xff) as bv8
  }

  function High(x: u16): u8 {
    (x >> 8) as bv8
  }

  function Join(high: u8, low: u8): u16 {
    ((high as bv16) << 8) | (low as bv16)
  }

  lemma {:induction false} SplitJoin(x: u16)
    ensures Join(High(x), Low(x)) == x
  {
    assert ((((x >> 8) as bv8) as bv16) << 8) | (((x & 0xff) as bv8) as bv16) == x;
  }

  lemma {:induction false} JoinSplit(h: u8, l: u8)
    ensures High(Join(h, l)) == h && Low(Join(h, l)) == l
  {
  }

  function PutU16(x: u16): Bytes {
    [High(x), Low(x)]
  }

  function PutU16Le(x: u16): Bytes {
    [Low(x), High(x)]
  }

  // ----- as numbers -----

  lemma {:induction false} JoinValue(high: u8, low: u8)
    ensures Join(high, low) as int == 0x100 * (high as int) + (low as int)
  {
    BitValues.Joined(high, low, Join(high, low));
  }

  lemma {:induction false} SplitValue(x: u16)
    ensures x as int == 0x100 * (High(x) as int) + (Low(x) as int)
  {
    BitValues.Split(x, High(x), Low(x));
  }

  // ----- opcodes -----

  function NewVendor(op: u8, vendor: u16): Opcode {
    Vendor(0xc0 | op, vendor)
  }

  /** The opcodes section 3.7.3.1 can express: the two top bits of the first octet give the width. */
  predicate WellFormed(op: Opcode) {
    match op
    case Sig1(n) => n & 0x80 == 0
    case Sig2(n) => n & 0xc000 == 0x8000
    case Vendor(code, _) => code & 0xc0 == 0xc0
  }

  function PutOpcode(op: Opcode): Bytes {
    match op
    case Sig1(n) => [n]
    case Sig2(n) => PutU16(n)
    case Vendor(code, vendor) => [code] + PutU16Le(vendor)
  }

  /** `Message::parse`: every malformed opcode is one error, so the error carries nothing. */
  function Parse(buf: Bytes): Option<Message> {
    if |buf| == 0 then None
    else if buf[0] & 0xc0 == 0xc0 then
      if |buf| < 3 then None
      else Some(Message(Vendor(buf[0], Join(buf[2], buf[1])), buf[3..]))
    else if buf[0] & 0x80 == 0x80 then
      if |buf| < 2 then None
      else Some(Message(Sig2(Join(buf[0], buf[1])), buf[2..]))
    else Some(Message(Sig1(buf[0]), buf[1..]))
  }

  /** `ToPacket::encode`, with the payload the packet's own `put_payload` appends; the assertion on the
      packet size is the `None` case. */
  method Encode(op: Opcode, payload: Bytes) returns (r: Option<Bytes>)
    ensures r.Some? <==> |PutOpcode(op)| + |payload| < 380
    ensures r.Some? ==> r.value == PutOpcode(op) + payload
    ensures r.Some? && WellFormed(op) ==> Parse(r.value) == Some(Message(op, payload))
  {
    var ret: Bytes := [];
    match op {
      case Sig1(n) => ret := ret + [n];
      case Sig2(n) => ret := ret + [High(n), Low(n)];
      case Vendor(code, vendor) =>
        ret := ret + [code];
        ret := ret + [Low(vendor), High(vendor)];
    }
    ret := ret + payload;
    ParseEncoded(op, payload);
    if |ret| < MESH_PACKET_MAX_SIZE {
      r := Some(ret);
    } else {
      r := None;
    }
  }

  /** Reading back what was written gives the same opcode and payload exactly for the well-formed opcodes. */
  lemma {:induction false} ParseEncoded(op: Opcode, payload: Bytes)
    ensures Parse(PutOpcode(op) + payload) == Some(Message(op, payload)) <==> WellFormed(op)
  {
    var buf := PutOpcode(op) + payload;
    match op
    case Sig1(n) =>
      assert buf[1..] == payload;
    case Sig2(n) =>
      assert buf[2..] == payload;
      SplitJoin(n);
      TopBits(n);
    case Vendor(code, vendor) =>
      assert buf[3..] == payload;
      SplitJoin(vendor);
  }

  lemma {:induction false} TopBits(n: u16)
    ensures n & 0xc000 == 0x8000 <==> High(n) & 0x80 == 0x80 && High(n) & 0xc0 != 0xc0
  {
  }

  /** Writing back what was read reproduces the buffer, and only well-formed opcodes are ever read. */
  lemma {:induction false} EncodeParsed(buf: Bytes)
    requires Parse(buf).Some?
    ensures WellFormed(Parse(buf).value.opcode)
    ensures PutOpcode(Parse(buf).value.opcode) + Parse(buf).value.payload == buf
  {
    if buf[0] & 0xc0 == 0xc0 {
      JoinSplit(buf[2], buf[1]);
    } else if buf[0] & 0x80 == 0x80 {
      JoinSplit(buf[0], buf[1]);
      TopBits(Join(buf[0], buf[1]));
    }
  }

  /** What is written: a SIG opcode with its high octet first, a company identifier with its low octet first. */
  lemma {:induction false} OpcodeOctets(op: Opcode)
    ensures var b := PutOpcode(op);
      match op
      case Sig1(n) => b == [n]
      case Sig2(n) => |b| == 2 && n as int == 0x100 * (b[0] as int) + (b[1] as int)
      case Vendor(code, vendor) => |b| == 3 && b[0] == code && vendor as int == (b[1] as int) + 0x100 * (b[2] as int)
  {
    match op
    case Sig1(_) =>
    case Sig2(n) => PutValue(n);
    case Vendor(_, vendor) => PutValue(vendor);
  }

  /** The number of two octets, low one first. */
  function Number16(b: Bytes, i: nat): nat
    requires i + 2 <= |b|
  {
    (b[i] as int) + 0x100 * (b[i + 1] as int)
  }

  lemma {:induction false} NumberAt(b: Bytes, i: nat, x: u16)
    requires i + 2 <= |b| && b[i] == Low(x) && b[i + 1] == High(x)
    ensures x as int == Number16(b, i)
  {
    SplitValue(x);
  }

  lemma {:induction false} PutValue(x: u16)
    ensures var b, l := PutU16(x), PutU16Le(x);
      && |b| == |l| == 2
      && x as int == 0x100 * (b[0] as int) + (b[1] as int)
      && x as int == (l[0] as int) + 0x100 * (l[1] as int)
  {
    SplitValue(x);
  }

  /** No written opcode is a prefix of another one. */
  lemma {:induction false} OpcodesArePrefixFree(a: Opcode, b: Opcode, rest: Bytes)
    requires WellFormed(a) && WellFormed(b)
    requires PutOpcode(a) == PutOpcode(b) + rest
    ensures a == b && rest == []
  {
    ParseEncoded(a, []);
    ParseEncoded(b, rest);
    assert PutOpcode(a) + [] == PutOpcode(b) + rest;
  }

  /** `Opcode::new_vendor` always builds an opcode that survives the wire. */
  lemma {:induction false} NewVendorIsWellFormed(op: u8, vendor: u16, payload: Bytes)
    ensures Parse(PutOpcode(NewVendor(op, vendor)) + payload) == Some(Message(NewVendor(op, vendor), payload))
  {
    assert (0xc0 | op) & 0xc0 == 0xc0;
    ParseEncoded(NewVendor(op, vendor), payload);
  }

  /** It tells any two operation codes of six bits apart. */
  lemma {:induction false} NewVendorTellsApart(a: u8, b: u8, v: u16, w: u16)
    requires a < 0x40 && b < 0x40
    ensures NewVendor(a, v) == NewVendor(b, w) <==> a == b && v == w
    ensures NewVendor(a, v).code as int == 0xc0 + (a as int) && NewVendor(a, v).vendor == v
  {
    assert (0xc0 | a) as int == 0xc0 + (a as int) && (0xc0 | b) as int == 0xc0 + (b as int);
  }

  // ----- packed key indexes -----

  function FirstKey(k0: u8, k1: u8): u16 {
    (((k1 & 0xf0) as bv16) << 4) | (k0 as bv16)
  }

  function SecondKey(k1: u8, k2: u8): u16 {
    ((k2 as bv16) << 4) | ((k1 & 0x0f) as bv16)
  }

  function UnpackKeyIndex(buf: Bytes): Option<(Bytes, (u16, u16))> {
    if |buf| < 3 then None
    else Some((buf[3..], (FirstKey(buf[0], buf[1]), SecondKey(buf[1], buf[2]))))
  }

  /** The inverse of the code's unpacking. */
  function PackKeyIndex(a: u16, b: u16): Bytes {
    [Low(a), (((a >> 4) & 0xf0) | (b & 0x0f)) as bv8, ((b >> 4) & 0xff) as bv8]
  }

  /** The layout of section 4.3.1.1: the pair is the 24-bit little-endian number first + 4096 * second. */
  function StandardPack(first: u16, second: u16): Bytes {
    [Low(first), ((first >> 8) & 0x0f) as bv8 | (((second & 0x0f) << 4) as bv8), ((second >> 4) & 0xff) as bv8]
  }

  /** Unpacking is a bijection between octet triples and pairs of 12-bit numbers. */
  lemma {:induction false} UnpackThenPack(buf: Bytes)
    requires |buf| == 3
    ensures var r := UnpackKeyIndex(buf).value.1;
            r.0 < 0x1000 && r.1 < 0x1000 && PackKeyIndex(r.0, r.1) == buf
  {
    UnpackBits(buf[0], buf[1], buf[2]);
  }

  lemma {:induction false} PackThenUnpack(a: u16, b: u16)
    requires a < 0x1000 && b < 0x1000
    ensures UnpackKeyIndex(PackKeyIndex(a, b)) == Some(([], (a, b)))
  {
    PackBits(a, b);
    assert PackKeyIndex(a, b)[3..] == [];
  }

  /** What the code reads: the low octet of the first index, with the high nibble of the middle octet on top, and the
      high octet of the second, with the low nibble below. */
  lemma {:induction false} KeyIndexValues(k0: u8, k1: u8, k2: u8)
    ensures FirstKey(k0, k1) as int == (k0 as int) + 0x100 * ((k1 as int) / 0x10)
    ensures SecondKey(k1, k2) as int == 0x10 * (k2 as int) + (k1 as int) % 0x10
  {
    BitValues.HighNibbleOnTop(k0, k1);
    BitValues.LowNibbleBelow(k1, k2);
  }

  /** What section 4.3.1.1 writes: 24 bits, low octet first. */
  lemma {:induction false} StandardPackValue(first: u16, second: u16)
    requires first < 0x1000 && second < 0x1000
    ensures var k := StandardPack(first, second);
      (k[0] as int) + 0x100 * (k[1] as int) + 0x1_0000 * (k[2] as int) == (first as int) + 0x1000 * (second as int)
  {
    BitValues.Packed(first, second);
  }

  lemma {:induction false} UnpackBits(k0: u8, k1: u8, k2: u8)
    ensures FirstKey(k0, k1) < 0x1000 && SecondKey(k1, k2) < 0x1000
    ensures PackKeyIndex(FirstKey(k0, k1), SecondKey(k1, k2)) == [k0, k1, k2]
  {
  }

  lemma {:induction false} PackBits(a: u16, b: u16)
    requires a < 0x1000 && b < 0x1000
    ensures var k := PackKeyIndex(a, b); FirstKey(k[0], k[1]) == a && SecondKey(k[1], k[2]) == b
  {
  }

  /** The code reads what section 4.3.1.1 writes exactly when the two nibbles of the middle octet are equal. */
  lemma {:induction false} KeyIndexAgreesWithStandard(first: u16, second: u16)
    requires first < 0x1000 && second < 0x1000
    ensures UnpackKeyIndex(StandardPack(first, second)) == Some(([], (first, second)))
      <==> first >> 8 == second & 0x0f
  {
    assert StandardPack(first, second)[3..] == [];
    StandardBits(first, second);
  }

  lemma {:induction false} StandardBits(first: u16, second: u16)
    requires first < 0x1000 && second < 0x1000
    ensures var k := StandardPack(first, second);
            FirstKey(k[0], k[1]) == first && SecondKey(k[1], k[2]) == second
            <==> first >> 8 == second & 0x0f
  {
  }

  // ----- model identifiers -----

  /** `put_model_id`, appending to the buffer it is given. */
  method PutModelId(buf: Bytes, id: ModelIdentifier) returns (out: Bytes)
    ensures out == buf + ModelIdBytes(id)
  {
    out := buf;
    match id {
      case SigModel(n) =>
        out := out + [High(n), Low(n)];
      case VendorModel(company, model) =>
        out := out + [Low(company), High(company)];
        out := out + [Low(model), High(model)];
    }
  }

  function ModelIdBytes(id: ModelIdentifier): Bytes {
    match id
    case SigModel(n) => PutU16(n)
    case VendorModel(company, model) => PutU16Le(company) + PutU16Le(model)
  }

  function ReadModelId(buf: Bytes): Option<ModelIdentifier> {
    if |buf| == 4 then Some(VendorModel(Join(buf[1], buf[0]), Join(buf[3], buf[2])))
    else if |buf| == 2 then Some(SigModel(Join(buf[1], buf[0])))
    else None
  }

  /** Writing then reading is the identity on vendor ids and swaps the two octets of a SIG id, so it is the
      identity there only when the octets are equal. */
  lemma {:induction false} ModelIdRoundTrip(id: ModelIdentifier)
    ensures id.VendorModel? ==> ReadModelId(ModelIdBytes(id)) == Some(id)
    ensures id.SigModel? ==> ReadModelId(ModelIdBytes(id)) == Some(SigModel(Join(Low(id.id), High(id.id))))
    ensures ReadModelId(ModelIdBytes(id)) == Some(id) <==> (id.SigModel? ==> High(id.id) == Low(id.id))
  {
    match id
    case SigModel(n) =>
      SplitJoin(n);
      JoinSplit(Low(n), High(n));
    case VendorModel(company, model) =>
      SplitJoin(company);
      SplitJoin(model);
  }

  /** The octets of an identifier as numbers, as written. */
  predicate IsModelId(w: Bytes, id: ModelIdentifier) {
    match id
    case SigModel(n) => |w| == 2 && n as int == 0x100 * (w[0] as int) + (w[1] as int)
    case VendorModel(c, m) => |w| == 4 && c as int == Number16(w, 0) && m as int == Number16(w, 2)
  }

  lemma {:induction false} ModelIdOctets(id: ModelIdentifier)
    ensures IsModelId(ModelIdBytes(id), id)
  {
    match id {
      case SigModel(n) => PutValue(n);
      case VendorModel(c, m) =>
        NumberAt(ModelIdBytes(id), 0, c);
        NumberAt(ModelIdBytes(id), 2, m);
    }
  }

  /** And as read. */
  lemma {:induction false} ReadModelIdOctets(b: Bytes)
    ensures match ReadModelId(b)
      case None => |b| != 2 && |b| != 4
      case Some(SigModel(n)) => |b| == 2 && n as int == Number16(b, 0)
      case Some(VendorModel(c, m)) => |b| == 4 && c as int == Number16(b, 0) && m as int == Number16(b, 2)
  {
    if |b| == 2 || |b| == 4 {
      JoinValue(b[1], b[0]);
      if |b| == 4 {
        JoinValue(b[3], b[2]);
      }
    }
  }

  // ----- sensor readings -----

  /** The payload of `BleWsSensorValues`: temperature (two's complement), humidity and pressure, all
      little-endian; `parse` refuses anything left over. */
  datatype SensorPayload = SensorPayload(temperature: bv16, humidity: bv16, pressure: bv32)

  function JoinWide(high: u16, low: u16): bv32 {
    ((high as bv32) << 16) | (low as bv32)
  }

  function LowHalf(x: bv32): u16 {
    (x & 0xffff) as bv16
  }

  function HighHalf(x: bv32): u16 {
    (x >> 16) as bv16
  }

  function ParseSensorValues(buf: Bytes): Option<SensorPayload> {
    if |buf| != 8 then None
    else
      Some(SensorPayload(
             Join(buf[1], buf[0]),
             Join(buf[3], buf[2]),
             JoinWide(Join(buf[7], buf[6]), Join(buf[5], buf[4]))))
  }

  function SensorBytes(v: SensorPayload): Bytes {
    PutU16Le(v.temperature) + PutU16Le(v.humidity)
    + PutU16Le(LowHalf(v.pressure)) + PutU16Le(HighHalf(v.pressure))
  }

  lemma {:induction false} WideSplit(high: u16, low: u16, x: bv32)
    ensures LowHalf(JoinWide(high, low)) == low && HighHalf(JoinWide(high, low)) == high
    ensures JoinWide(HighHalf(x), LowHalf(x)) == x
  {
  }

  lemma {:induction false} WideValue(high: u16, low: u16)
    ensures JoinWide(high, low) as int == 0x1_0000 * (high as int) + (low as int)
  {
    BitValues.JoinedWide(high, low, JoinWide(high, low));
  }

  /** Exactly the payloads of eight octets are readings: temperature, humidity, pressure, low octets first. */
  lemma {:induction false} SensorNumbers(b: Bytes)
    ensures ParseSensorValues(b).Some? <==> |b| == 8
    ensures |b| == 8 ==>
      var v := ParseSensorValues(b).value;
      && v.temperature as int == Number16(b, 0) && v.humidity as int == Number16(b, 2)
      && v.pressure as int == Number16(b, 4) + 0x1_0000 * Number16(b, 6)
  {
    if |b| == 8 {
      JoinValue(b[1], b[0]);
      JoinValue(b[3], b[2]);
      JoinValue(b[5], b[4]);
      JoinValue(b[7], b[6]);
      WideValue(Join(b[7], b[6]), Join(b[5], b[4]));
    }
  }

  /** Every reading survives the wire. */
  lemma {:induction false} ParseSensorBytes(v: SensorPayload)
    ensures ParseSensorValues(SensorBytes(v)) == Some(v)
  {
    SplitJoin(v.temperature);
    SplitJoin(v.humidity);
    SplitJoin(LowHalf(v.pressure));
    SplitJoin(HighHalf(v.pressure));
    WideSplit(0, 0, v.pressure);
  }

  /** The accepted payloads are exactly the eight-octet ones, and no two of them read the same. */
  lemma {:induction false} SensorBytesParsed(buf: Bytes)
    ensures ParseSensorValues(buf).Some? <==> |buf| == 8
    ensures |buf| == 8 ==> SensorBytes(ParseSensorValues(buf).value) == buf
  {
    if |buf| == 8 {
      JoinSplit(buf[1], buf[0]);
      JoinSplit(buf[3], buf[2]);
      JoinSplit(buf[5], buf[4]);
      JoinSplit(buf[7], buf[6]);
      WideSplit(Join(buf[7], buf[6]), Join(buf[5], buf[4]), 0);
    }
  }
}
