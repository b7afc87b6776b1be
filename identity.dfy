/** Reading the TPM's identity: one fixed property per TPM2_GetCapability
    call, packed big-endian into four bytes, then assembled into the
    manufacturer, model, firmware and specification revision. */
module Identity {
  import opened Common

  /** One entry of a TPM properties list: the tag the TPM reports and its value. */
  datatype TaggedProperty = TaggedProperty(tag: uint32, value: uint32)

  /** The TPM's answer to a GetCapability request for one property. */
  datatype CapResponse =
    | ExecuteFailed                         // the command itself failed
    | OtherCapability                       // the capability data is not a TPM properties list
    | Properties(props: seq<TaggedProperty>)

  /** binary.BigEndian.PutUint32 into a fresh 4-byte slice. */
  function PutUint32(v: uint32): (b: seq<byte>)
    ensures |b| == 4
  {
    [(v / 0x100_0000) as byte,
     (v / 0x1_0000 % 0x100) as byte,
     (v / 0x100 % 0x100) as byte,
     (v % 0x100) as byte]
  }

  /** binary.BigEndian.Uint32: the value of the first four bytes, most
      significant first (Go panics on a shorter slice). */
  function Uint32(b: seq<byte>): (r: uint32)
    requires |b| >= 4
    ensures r as int / 0x100_0000 == b[0] as int
    ensures r as int / 0x1_0000 % 0x100 == b[1] as int
    ensures r as int / 0x100 % 0x100 == b[2] as int
    ensures r as int % 0x100 == b[3] as int
  {
    DivModUnique(b[0] as int * 0x100_0000 + b[1] as int * 0x1_0000 + b[2] as int * 0x100 + b[3] as int,
      0x100_0000, b[0] as int, b[1] as int * 0x1_0000 + b[2] as int * 0x100 + b[3] as int);
    DivModUnique(b[0] as int * 0x100_0000 + b[1] as int * 0x1_0000 + b[2] as int * 0x100 + b[3] as int,
      0x100, b[0] as int * 0x1_0000 + b[1] as int * 0x100 + b[2] as int, b[3] as int);
    DivModUnique(b[0] as int * 0x100_0000 + b[1] as int * 0x1_0000 + b[2] as int * 0x100 + b[3] as int,
      0x1_0000, b[0] as int * 0x100 + b[1] as int, b[2] as int * 0x100 + b[3] as int);
    DivModUnique(b[0] as int * 0x100 + b[1] as int, 0x100, b[0] as int, b[1] as int);
    DivModUnique(b[0] as int * 0x1_0000 + b[1] as int * 0x100 + b[2] as int,
      0x100, b[0] as int * 0x100 + b[1] as int, b[2] as int);
    (b[0] as int * 0x100_0000 + b[1] as int * 0x1_0000 + b[2] as int * 0x100 + b[3] as int) as uint32
  }

  /** Euclidean division is determined by its quotient and remainder. */
  lemma DivModUnique(x: int, d: int, q: int, m: int)
    requires 0 < d && 0 <= m < d && x == q * d + m
    ensures x / d == q && x % d == m
  {
    var k := x / d - q;
    assert d * k == m - x % d;
  }

  /** Decoding an encoded value gives it back. */
  lemma DecodeEncode(v: uint32)
    ensures Uint32(PutUint32(v)) == v
  {
    var x := v as int;
    var q1, r0 := x / 0x100, x % 0x100;
    var q2, r1 := q1 / 0x100, q1 % 0x100;
    var q3, r2 := q2 / 0x100, q2 % 0x100;
    assert x == q3 * 0x100_0000 + (r2 * 0x100 + r1) * 0x100 + r0;
    DivModUnique(x, 0x1_0000, q2, r1 * 0x100 + r0);
    DivModUnique(x, 0x100_0000, q3, (r2 * 0x100 + r1) * 0x100 + r0);
  }

  /** Encoding the value of four bytes gives the same four bytes back. */
  lemma EncodeDecode(b: seq<byte>)
    requires |b| == 4
    ensures PutUint32(Uint32(b)) == b
  {
    var x := Uint32(b) as int;
    var b0, b1, b2, b3 := b[0] as int, b[1] as int, b[2] as int, b[3] as int;
    DivModUnique(x, 0x100, (b0 * 0x100 + b1) * 0x100 + b2, b3);
    DivModUnique(x / 0x100, 0x100, b0 * 0x100 + b1, b2);
    DivModUnique(x, 0x1_0000, b0 * 0x100 + b1, b2 * 0x100 + b3);
    DivModUnique(x / 0x1_0000, 0x100, b0, b1);
    DivModUnique(x, 0x100_0000, b0, (b1 * 0x100 + b2) * 0x100 + b3);
  }

  /** getCap: succeeds only when the response lists exactly one property,
      and then returns its value as four big-endian bytes. The reported tag
      is not compared with the property asked for. */
  function GetCap(property: Property, response: CapResponse): (r: Result<seq<byte>>)
    ensures r.Ok? <==> response.Properties? && |response.props| == 1
    ensures r.Ok? ==> |r.value| == 4 && Uint32(r.value) == response.props[0].value
    ensures response.ExecuteFailed? ==> r == Err(CapabilityFailed(property))
    ensures response.OtherCapability? ==> r == Err(NotTpmProperties(property))
    ensures response.Properties? && |response.props| != 1 ==> r == Err(MissingProperty(property))
  {
    match response
    case ExecuteFailed => Err(CapabilityFailed(property))
    case OtherCapability => Err(NotTpmProperties(property))
    case Properties(props) =>
      if |props| != 1 then Err(MissingProperty(property))
      else
        DecodeEncode(props[0].value);
        Ok(PutUint32(props[0].value))
  }

  /** The specification revision as "major.minor". */
  datatype SpecVersion = SpecVersion(major: nat, minor: nat)

  /** Splits the revision number: two decimal places of minor version. */
  function SplitRevision(revision: uint32): (v: SpecVersion)
    ensures v.minor < 100
    ensures 100 * v.major + v.minor == revision as int
  {
    SpecVersion(revision as int / 100, revision as int % 100)
  }

  /** The split is the only one with a minor part below 100. */
  lemma SplitRevisionUnique(revision: uint32, v: SpecVersion)
    requires v.minor < 100 && 100 * v.major + v.minor == revision as int
    ensures SplitRevision(revision) == v
  {
  }

  /** What the tool reports about the device. */
  datatype TpmInfo = TpmInfo(
    manufacturer: seq<byte>,  // the four bytes of the manufacturer property, as a string
    model: seq<byte>,         // the four vendor strings, concatenated
    firmware: seq<byte>,      // the two firmware-version words, shown in hex
    specVersion: SpecVersion)

  /** The properties in the order getTPMInfo reads them. */
  const ReadOrder: seq<Property> := [
    Manufacturer, FirmwareVersion1, FirmwareVersion2, Revision,
    VendorString1, VendorString2, VendorString3, VendorString4]

  /** The answer getCap gives for `property` on the device `query`. */
  function Read(query: Property -> CapResponse, property: Property): Result<seq<byte>>
  {
    GetCap(property, query(property))
  }

  /** Every identity property can be read. */
  predicate AllReadable(query: Property -> CapResponse)
  {
    forall i | 0 <= i < |ReadOrder| :: Read(query, ReadOrder[i]).Ok?
  }

  /** The device identity built from successful reads: the manufacturer
      bytes, the four vendor strings (ReadOrder[4..8]) one after another as
      the model, the two firmware words, and the revision split into
      major and minor. */
  function InfoOf(query: Property -> CapResponse): (r: TpmInfo)
    requires AllReadable(query)
    ensures |r.manufacturer| == 4 && |r.model| == 16 && |r.firmware| == 8
    ensures r.manufacturer == Read(query, Manufacturer).value
    ensures r.model[..4] == Read(query, ReadOrder[4]).value && r.model[4..8] == Read(query, ReadOrder[5]).value
    ensures r.model[8..12] == Read(query, ReadOrder[6]).value && r.model[12..] == Read(query, ReadOrder[7]).value
    ensures r.firmware[..4] == Read(query, FirmwareVersion1).value && r.firmware[4..] == Read(query, FirmwareVersion2).value
    ensures r.specVersion.minor < 100
    ensures 100 * r.specVersion.major + r.specVersion.minor == Uint32(Read(query, Revision).value) as int
  {
    assert Read(query, ReadOrder[0]).Ok? && Read(query, ReadOrder[1]).Ok? && Read(query, ReadOrder[2]).Ok?;
    assert Read(query, ReadOrder[3]).Ok? && Read(query, ReadOrder[4]).Ok? && Read(query, ReadOrder[5]).Ok?;
    assert Read(query, ReadOrder[6]).Ok? && Read(query, ReadOrder[7]).Ok?;
    TpmInfo(
      Read(query, Manufacturer).value,
      Read(query, VendorString1).value + Read(query, VendorString2).value
        + Read(query, VendorString3).value + Read(query, VendorString4).value,
      Read(query, FirmwareVersion1).value + Read(query, FirmwareVersion2).value,
      SplitRevision(Uint32(Read(query, Revision).value)))
  }

  /** getTPMInfo: reads the eight properties in order, stopping at the first
      failure, and builds the model string by appending the vendor strings.
      `asked` is how many properties were requested from the device: the
      first `asked` entries of ReadOrder. */
  method GetTpmInfo(query: Property -> CapResponse) returns (r: Result<TpmInfo>, asked: nat)
    ensures 0 < asked <= |ReadOrder|
    ensures forall i | 0 <= i < asked - 1 :: Read(query, ReadOrder[i]).Ok?
    ensures r.Ok? <==> AllReadable(query)
    ensures r.Err? ==> Read(query, ReadOrder[asked - 1]) == Err(r.error)
    ensures r.Ok? ==> asked == |ReadOrder| && r.value == InfoOf(query)
    ensures r.Ok? ==> |r.value.model| == 16 && |r.value.firmware| == 8
  {
    asked := 1;
    var mfr := Read(query, Manufacturer);
    if mfr.Err? {
      assert !Read(query, ReadOrder[0]).Ok?;
      return Err(mfr.error), asked;
    }
    asked := asked + 1;
    var fw1 := Read(query, FirmwareVersion1);
    if fw1.Err? {
      assert !Read(query, ReadOrder[1]).Ok?;
      return Err(fw1.error), asked;
    }
    asked := asked + 1;
    var fw2 := Read(query, FirmwareVersion2);
    if fw2.Err? {
      assert !Read(query, ReadOrder[2]).Ok?;
      return Err(fw2.error), asked;
    }
    asked := asked + 1;
    var specVersion := Read(query, Revision);
    if specVersion.Err? {
      assert !Read(query, ReadOrder[3]).Ok?;
      return Err(specVersion.error), asked;
    }
    var revision := Uint32(specVersion.value);
    asked := asked + 1;
    var model1 := Read(query, VendorString1);
    if model1.Err? {
      assert !Read(query, ReadOrder[4]).Ok?;
      return Err(model1.error), asked;
    }
    asked := asked + 1;
    var model2 := Read(query, VendorString2);
    if model2.Err? {
      assert !Read(query, ReadOrder[5]).Ok?;
      return Err(model2.error), asked;
    }
    asked := asked + 1;
    var model3 := Read(query, VendorString3);
    if model3.Err? {
      assert !Read(query, ReadOrder[6]).Ok?;
      return Err(model3.error), asked;
    }
    asked := asked + 1;
    var model4 := Read(query, VendorString4);
    if model4.Err? {
      assert !Read(query, ReadOrder[7]).Ok?;
      return Err(model4.error), asked;
    }
    var model: seq<byte> := [];
    model := model + model1.value;
    assert model == model1.value;
    model := model + model2.value;
    model := model + model3.value;
    model := model + model4.value;
    r := Ok(TpmInfo(mfr.value, model, fw1.value + fw2.value, SplitRevision(revision)));
  }
}
