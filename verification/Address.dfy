/** P2QPK addresses, address/address.go: a 32-byte program, a witness version and
    a network in, one Bech32m string out, and back. */
module Address {
  import opened Common
  import opened Checksum
  import opened Bech32
  import opened Spaces
  import Regroup

  datatype Network = Mainnet | Testnet | Regtest

  datatype AddressError =
    | InvalidAddress
    | WrongHrp
    | TaprootDetected
    | BadRegrouping

  datatype Owned = Owned(hash: seq<byte>, network: Network)

  const WITNESS_VERSION: byte := 2
  const PROGRAM_LENGTH: nat := 32

  function Hrp(net: Network): AsciiString { if net == Testnet then "bqt" else "bq" }

  function KnownHrp(hrp: string): Option<Network> {
    if hrp == "bq" then Some(Mainnet) else if hrp == "bqt" then Some(Testnet) else None
  }

  /** The variant BIP-350 binds to a witness version. */
  function ConstantFor(version: byte): Word { if version == 0 then BECH32 else BECH32M }

  function EncodeAddress(hash: seq<byte>, net: Network): Result<AsciiString, BechError> {
    Encode(Hrp(net), [WITNESS_VERSION] + Regroup.ToFive(hash), ConstantFor(WITNESS_VERSION))
  }

  ghost function DecodeAddress(addr: AsciiString): Result<Owned, AddressError> {
    match Decode(addr)
    case Err(_) => Err(InvalidAddress)
    case Ok(d) => ReadPayload(d)
  }

  function ReadPayload(d: Decoded): Result<Owned, AddressError> {
    var net := KnownHrp(d.hrp);
    if net.None? then Err(WrongHrp)
    else if d.data == [] then Err(InvalidAddress)
    else if d.constant != ConstantFor(d.data[0]) then Err(InvalidAddress)
    else if d.data[0] == 1 then Err(TaprootDetected)
    else if d.data[0] != WITNESS_VERSION then Err(InvalidAddress)
    else
      var program := Regroup.ToEight(d.data[1..]);
      if program.None? then Err(BadRegrouping)
      else if |program.value| != PROGRAM_LENGTH then Err(InvalidAddress)
      else Ok(Owned(program.value, net.value))
  }

  // ------------------------------------------------- destinations of a payment

  datatype DestinationType = P2PKH | P2SH | P2WPKH | P2WSH | P2TR | P2QPK

  datatype Destination = Destination(kind: DestinationType, script: seq<byte>)

  /** What base58.CheckDecode answers. */
  datatype Legacy = Legacy(payload: seq<byte>, version: byte)

  /** DecodeMainnetDestination, with the Base58Check decoder as the parameter `base58`. */
  ghost function MainnetDestination(base58: AsciiString -> Option<Legacy>, addr: AsciiString)
    : Result<Destination, AddressError>
  {
    if addr == "" || Trim(addr) != addr then Err(InvalidAddress)
    else
      match base58(addr)
      case Some(legacy) => LegacyDestination(legacy)
      case None => SegwitDestination(addr)
  }

  function LegacyDestination(legacy: Legacy): Result<Destination, AddressError> {
    if |legacy.payload| != 20 then Err(InvalidAddress)
    else if legacy.version == 120 then
      Ok(Destination(P2PKH, [0x76, 0xa9, 0x14] + legacy.payload + [0x88, 0xac]))
    else if legacy.version == 102 then Ok(Destination(P2SH, [0xa9, 0x14] + legacy.payload + [0x87]))
    else Err(InvalidAddress)
  }

  ghost function SegwitDestination(addr: AsciiString): Result<Destination, AddressError> {
    match Decode(addr)
    case Err(_) => Err(InvalidAddress)
    case Ok(d) => ReadDestination(d)
  }

  function ReadDestination(d: Decoded): Result<Destination, AddressError> {
    if d.hrp != Hrp(Mainnet) then Err(WrongHrp)
    else if d.data == [] || d.data[0] > 16 then Err(InvalidAddress)
    else if d.constant != ConstantFor(d.data[0]) then Err(InvalidAddress)
    else
      var version := d.data[0];
      var regrouped := Regroup.ToEight(d.data[1..]);
      if regrouped.None? then Err(InvalidAddress)
      else
        var program := regrouped.value;
        if |program| < 2 || |program| > 40 then Err(InvalidAddress)
        else if version == 0 && |program| == 20 then Ok(Destination(P2WPKH, WitnessScript(version, program)))
        else if version == 0 && |program| == 32 then Ok(Destination(P2WSH, WitnessScript(version, program)))
        else if version == 1 && |program| == 32 then Ok(Destination(P2TR, WitnessScript(version, program)))
        else if version == WITNESS_VERSION && |program| == PROGRAM_LENGTH then
          Ok(Destination(P2QPK, WitnessScript(version, program)))
        else Err(InvalidAddress)
  }

  function WitnessScript(version: byte, program: seq<byte>): seq<byte>
    requires version <= 16 && |program| <= 40
  {
    [if version > 0 then 0x50 + version else 0, |program|] + program
  }

  // ---------------------------------------------------------------- theorems

  lemma PayloadSymbols(hash: seq<byte>)
    requires |hash| == PROGRAM_LENGTH
    ensures var payload := [WITNESS_VERSION] + Regroup.ToFive(hash);
            Symbols(payload) && |payload| == 53 && payload[1..] == Regroup.ToFive(hash)
  {
    Regroup.ToFiveSymbols(hash);
  }

  lemma HrpPlain(net: Network)
    ensures ToLower(Hrp(net)) == Hrp(net) && Printable(Hrp(net)) && !MixesCase(Hrp(net)) && 2 <= |Hrp(net)| <= 3
  {
    LowerIdempotent(Hrp(net));
    assert ToLower("bq") == "bq" && ToLower("bqt") == "bqt";
  }

  /** An address gives back its program, and its network unless that is Regtest,
      which has no prefix of its own and reads back as Mainnet. */
  lemma AddressRoundTrip(hash: seq<byte>, net: Network)
    requires |hash| == PROGRAM_LENGTH
    ensures EncodeAddress(hash, net).Ok?
    ensures DecodeAddress(EncodeAddress(hash, net).value) == Ok(Owned(hash, if net == Regtest then Mainnet else net))
  {
    var payload := [WITNESS_VERSION] + Regroup.ToFive(hash);
    DecodeOfEncode(Hrp(net), payload, BECH32M);
    HrpPlain(net);
    PayloadSymbols(hash);
    Regroup.EightOfFive(hash);
    assert Decode(EncodeAddress(hash, net).value) == Ok(Decoded(Hrp(net), payload, BECH32M));
  }

  lemma SymbolsRead(addr: AsciiString)
    requires Decode(addr).Ok?
    ensures Symbols(Decode(addr).value.data)
  {
    EncodeOfDecode(addr);
  }

  /** Every string the wallet accepts as its own is, up to case, the one it would
      have produced for that program and network. */
  lemma AddressCanonical(addr: AsciiString)
    requires DecodeAddress(addr).Ok?
    ensures var owned := DecodeAddress(addr).value;
            owned.network != Regtest && EncodeAddress(owned.hash, owned.network) == Ok(ToLower(addr))
  {
    hide Decode, Encode, Regroup.ToEight, Regroup.ToFive;
    var d := Decode(addr).value;
    EncodeOfDecode(addr);
    SymbolsRead(addr);
    Regroup.FiveOfEight(d.data[1..]);
    assert d.data == [WITNESS_VERSION] + d.data[1..];
  }

  /** The wallet accepts exactly its own addresses, in one case. */
  lemma AddressIff(addr: AsciiString, hash: seq<byte>, net: Network)
    ensures DecodeAddress(addr) == Ok(Owned(hash, net)) <==>
              net != Regtest && |hash| == PROGRAM_LENGTH && !MixesCase(addr) && EncodeAddress(hash, net) == Ok(ToLower(addr))
  {
    hide Decode, Encode, MixesCase, Regroup.ToEight, Regroup.ToFive;
    if DecodeAddress(addr).Ok? {
      AddressCanonical(addr);
      OwnedLength(addr);
      DecodeIff(addr, Decode(addr).value);
    }
    if net != Regtest && |hash| == PROGRAM_LENGTH && !MixesCase(addr) && EncodeAddress(hash, net) == Ok(ToLower(addr)) {
      hide ReadPayload, ToLower;
      CaseIgnored(addr);
      AddressRoundTrip(hash, net);
    }
  }

  lemma TextBegins(hrp: AsciiString, values: seq<byte>)
    requires Symbols(values) && values != [] && values[0] == 2
    ensures |Text(ABC, hrp, values)| >= |hrp| + 2 && Text(ABC, hrp, values)[..|hrp| + 2] == hrp + "1z"
  {
    LetterTwo();
    assert Letters(ABC, values)[0] == 'z';
  }

  /** What a refusal means: a text the codec refuses, a valid text of another chain, a
      Taproot address of this one, symbols that are no bytes, or anything else. */
  lemma RefusalMeans(addr: AsciiString)
    requires DecodeAddress(addr).Err?
    ensures var e := DecodeAddress(addr).error;
            if Decode(addr).Err? then e == InvalidAddress
            else
              var Decoded(hrp, data, constant) := Decode(addr).value;
              && (e == WrongHrp <==> hrp != "bq" && hrp != "bqt")
              && (e == TaprootDetected <==> (hrp == "bq" || hrp == "bqt") && data != [] && data[0] == 1 && constant == BECH32M)
              && (e == BadRegrouping <==>
                    (hrp == "bq" || hrp == "bqt") && data != [] && data[0] == 2 && constant == BECH32M && Regroup.ToEight(data[1..]).None?)
  {
    hide Decode, Regroup.ToEight;
  }

  /** Every address begins as the documentation says. */
  lemma AddressBegins(hash: seq<byte>, net: Network)
    requires |hash| == 32
    ensures EncodeAddress(hash, net).Ok?
    ensures var addr := EncodeAddress(hash, net).value;
            if net == Testnet then |addr| == 63 && addr[..5] == "bqt1z" else |addr| == 62 && addr[..4] == "bq1z"
  {
    hide Regroup.ToFive, Create, Decode, ReadPayload, Text, Printable, MixesCase, ToLower, Symbols;
    AddressRoundTrip(hash, net);
    PayloadSymbols(hash);
    HrpPlain(net);
    var payload := [WITNESS_VERSION] + Regroup.ToFive(hash);
    var values := payload + Create(Hrp(net), payload, BECH32M);
    ConcatSymbols(payload, Create(Hrp(net), payload, BECH32M));
    TextBegins(Hrp(net), values);
  }

  lemma LetterTwo()
    ensures ABC[2] == 'z'
  {
  }

  lemma AddressShape(addr: AsciiString)
    requires DecodeAddress(addr).Ok?
    ensures var prefix := Hrp(DecodeAddress(addr).value.network);
            var s := ToLower(addr);
            && |s| == |prefix| + 60 && s[..|prefix| + 1] == prefix + "1"
            && LastIndex(s, '1') == |prefix|
  {
    hide Decode, ReadPayload, Regroup.ToFive, Create, LastIndex;
    AddressCanonical(addr);
    var owned := DecodeAddress(addr).value;
    OwnedLength(addr);
    PayloadSymbols(owned.hash);
    HrpPlain(owned.network);
    var payload := [WITNESS_VERSION] + Regroup.ToFive(owned.hash);
    TextParts(ABC, Hrp(owned.network), payload + Create(Hrp(owned.network), payload, BECH32M));
  }

  lemma OwnedLength(addr: AsciiString)
    requires DecodeAddress(addr).Ok?
    ensures |DecodeAddress(addr).value.hash| == PROGRAM_LENGTH
  {
    hide Decode, Regroup.ToEight;
  }

  lemma BurstPlaced(s: AsciiString, t: AsciiString, sep: nat, lo: nat)
    requires LastIndex(s, '1') == sep == LastIndex(t, '1')
    requires |s| == |t| && s[..sep + 1] == t[..sep + 1]
    requires sep < |s| && DifferWithin(s, t, lo)
    ensures BurstApart(s, t, if lo <= sep then 0 else lo - sep - 1)
  {
    hide LastIndex;
    var from := if lo <= sep then 0 else lo - sep - 1;
    forall i | 0 <= i < |s| && !(sep + 1 + from <= i < sep + 7 + from) ensures s[i] == t[i] {
      if i <= sep {
        assert s[..sep + 1][i] == t[..sep + 1][i];
      }
    }
  }

  /** A burst of up to six wrong letters, wherever it falls, never turns an owned address
      into another accepted text. */
  lemma AddressBurstRejected(addr: AsciiString, typo: AsciiString, lo: nat)
    requires DecodeAddress(addr).Ok?
    requires DifferWithin(ToLower(addr), ToLower(typo), lo) && ToLower(addr) != ToLower(typo)
    ensures DecodeAddress(typo).Err?
  {
    hide DecodeAddress, LastIndex, ToLower, BurstApart, Decode;
    if DecodeAddress(typo).Ok? {
      AddressShape(addr);
      AddressShape(typo);
      SameVariant(addr);
      SameVariant(typo);
      SameNetwork(addr, typo);
      var prefix := Hrp(DecodeAddress(addr).value.network);
      BurstPlaced(ToLower(addr), ToLower(typo), |prefix|, lo);
      hide DifferWithin, Hrp;
      BurstRejected(addr, typo, if lo <= |prefix| then 0 else lo - |prefix| - 1);
    }
  }

  lemma SameNetwork(addr: AsciiString, typo: AsciiString)
    requires DecodeAddress(addr).Ok? && DecodeAddress(typo).Ok? && |addr| == |typo|
    ensures Hrp(DecodeAddress(addr).value.network) == Hrp(DecodeAddress(typo).value.network)
  {
    hide DecodeAddress, LastIndex;
    AddressShape(addr);
    AddressShape(typo);
  }

  lemma SameVariant(addr: AsciiString)
    requires DecodeAddress(addr).Ok?
    ensures Decode(addr).Ok? && Decode(addr).value.constant == BECH32M
  {
    hide Decode, Regroup.ToEight;
  }

  /** A P2QPK script names its program. */
  lemma ScriptNames(program: seq<byte>, hash: seq<byte>)
    requires |program| == PROGRAM_LENGTH
    ensures WitnessScript(WITNESS_VERSION, program) == [0x52, 0x20] + hash <==> program == hash
  {
    if WitnessScript(WITNESS_VERSION, program) == [0x52, 0x20] + hash {
      SameTail([0x52, 0x20], program, hash);
    }
  }

  lemma SameTail(head: seq<byte>, a: seq<byte>, b: seq<byte>)
    requires head + a == head + b
    ensures a == b
  {
    assert (head + a)[|head|..] == a && (head + b)[|head|..] == b;
  }

  lemma ReadOwned(d: Decoded, hash: seq<byte>)
    ensures ReadPayload(d) == Ok(Owned(hash, Mainnet)) <==>
            && d.hrp == "bq" && d.data != [] && d.data[0] == WITNESS_VERSION && d.constant == BECH32M
            && Regroup.ToEight(d.data[1..]) == Some(hash) && |hash| == PROGRAM_LENGTH
  {
    hide Regroup.ToEight;
  }

  lemma ReadPayable(d: Decoded, hash: seq<byte>)
    requires |hash| == PROGRAM_LENGTH
    ensures ReadDestination(d) == Ok(Destination(P2QPK, [0x52, 0x20] + hash)) <==>
            && d.hrp == "bq" && d.data != [] && d.data[0] == WITNESS_VERSION && d.constant == BECH32M
            && Regroup.ToEight(d.data[1..]) == Some(hash)
  {
    hide Regroup.ToEight;
    if d.data != [] && d.data[0] == WITNESS_VERSION && Regroup.ToEight(d.data[1..]).Some?
       && |Regroup.ToEight(d.data[1..]).value| == PROGRAM_LENGTH {
      ScriptNames(Regroup.ToEight(d.data[1..]).value, hash);
      hide WitnessScript;
    }
  }

  lemma SegwitAgrees(addr: AsciiString, hash: seq<byte>)
    ensures DecodeAddress(addr) == Ok(Owned(hash, Mainnet)) <==>
            |hash| == PROGRAM_LENGTH && SegwitDestination(addr) == Ok(Destination(P2QPK, [0x52, 0x20] + hash))
  {
    hide Decode, ReadPayload, ReadDestination;
    if Decode(addr).Ok? {
      ReadOwned(Decode(addr).value, hash);
      if |hash| == PROGRAM_LENGTH { ReadPayable(Decode(addr).value, hash); }
    }
  }

  lemma Unspaced(addr: AsciiString)
    requires DecodeAddress(addr).Ok?
    ensures addr != "" && Trim(addr) == addr
  {
    var s := ToLower(addr);
    AddressShape(addr);
    VisibleEnd(addr);
    hide DecodeAddress, LastIndex, Trim;
    assert s[0] == LowerChar(addr[0]) == Hrp(DecodeAddress(addr).value.network)[0];
    TrimOf("", addr, "");
    assert "" + addr + "" == addr;
  }

  lemma VisibleEnd(addr: AsciiString)
    requires Decode(addr).Ok?
    ensures addr != "" && !IsSpace(addr[|addr| - 1])
  {
    var values := TextOfDecode(ABC, ToLower(addr));
    hide Decode, DecodeLower;
    var c := addr[|addr| - 1];
    assert LowerChar(c) == ToLower(addr)[|addr| - 1] == Letters(ABC, values)[|values| - 1];
  }

  /** A payment goes to a P2QPK program exactly when the wallet's own decoder accepts the
      string on Mainnet, for that program, and Base58Check does not. */
  lemma DestinationAgrees(base58: AsciiString -> Option<Legacy>, addr: AsciiString, hash: seq<byte>)
    ensures base58(addr).None? && DecodeAddress(addr) == Ok(Owned(hash, Mainnet)) <==>
            |hash| == PROGRAM_LENGTH
            && MainnetDestination(base58, addr) == Ok(Destination(P2QPK, [0x52, 0x20] + hash))
  {
    hide DecodeAddress, SegwitDestination, Trim;
    SegwitAgrees(addr, hash);
    if DecodeAddress(addr).Ok? { Unspaced(addr); }
  }

  /** The witness programs that a payment may name: BIP-141 for version 0, BIP-341 for
      version 1, the wallet's own for version 2. */
  predicate WitnessForm(d: Destination, program: seq<byte>, version: byte, constant: Word) {
    match d.kind
    case P2WPKH => |program| == 20 && version == 0 && constant == BECH32 && d.script == [0x00, 0x14] + program
    case P2WSH => |program| == 32 && version == 0 && constant == BECH32 && d.script == [0x00, 0x20] + program
    case P2TR => |program| == 32 && version == 1 && constant == BECH32M && d.script == [0x51, 0x20] + program
    case P2QPK => |program| == 32 && version == 2 && constant == BECH32M && d.script == [0x52, 0x20] + program
    case P2PKH => false
    case P2SH => false
  }

  /** `addr` is, in one case, the mainnet address of this program. */
  predicate WitnessAddress(addr: AsciiString, program: seq<byte>, version: byte, constant: Word) {
    !MixesCase(addr) && Encode("bq", [version] + Regroup.ToFive(program), constant) == Ok(ToLower(addr))
  }

  lemma SegwitForm(addr: AsciiString) returns (program: seq<byte>)
    requires SegwitDestination(addr).Ok?
    ensures var d := Decode(addr).value;
            Decode(addr).Ok? && d.data != []
            && WitnessForm(SegwitDestination(addr).value, program, d.data[0], d.constant)
            && WitnessAddress(addr, program, d.data[0], d.constant)
  {
    hide Decode, Encode, MixesCase, Regroup.ToEight, Regroup.ToFive;
    var d := Decode(addr).value;
    program := Regroup.ToEight(d.data[1..]).value;
    DecodeIff(addr, d);
    SymbolsRead(addr);
    Regroup.FiveOfEight(d.data[1..]);
    assert d.data == [d.data[0]] + d.data[1..];
  }

  lemma FormPays(addr: AsciiString, d: Destination, program: seq<byte>, version: byte, constant: Word)
    requires WitnessForm(d, program, version, constant) && WitnessAddress(addr, program, version, constant)
    ensures SegwitDestination(addr) == Ok(d)
  {
    hide Decode, Encode, MixesCase, Regroup.ToEight, Regroup.ToFive;
    var data := [version] + Regroup.ToFive(program);
    HrpPlain(Mainnet);
    SegwitLength(program, version, constant);
    DecodeIff(addr, Decoded("bq", data, constant));
    Regroup.EightOfFive(program);
    assert data[1..] == Regroup.ToFive(program);
    assert d.script == WitnessScript(version, program);
  }

  lemma SegwitLength(program: seq<byte>, version: byte, constant: Word)
    requires |program| <= 32 && Encode("bq", [version] + Regroup.ToFive(program), constant).Ok?
    ensures |Encode("bq", [version] + Regroup.ToFive(program), constant).value| <= 90
  {
    hide Regroup.ToFive, Create;
    Regroup.ToFiveSymbols(program);
  }

  /** The SegWit payments, exactly: which texts name which script. */
  lemma SegwitIff(addr: AsciiString, d: Destination)
    ensures SegwitDestination(addr) == Ok(d) <==>
              exists program, version, constant ::
                WitnessForm(d, program, version, constant) && WitnessAddress(addr, program, version, constant)
  {
    hide SegwitDestination, WitnessForm, WitnessAddress;
    if SegwitDestination(addr).Ok? { var program := SegwitForm(addr); }
    forall program, version, constant | WitnessForm(d, program, version, constant) && WitnessAddress(addr, program, version, constant)
      ensures SegwitDestination(addr) == Ok(d)
    {
      FormPays(addr, d, program, version, constant);
    }
  }

  /** The legacy payments: a 20-byte hash under version 120 or 102 and nothing else. */
  lemma LegacyIff(base58: AsciiString -> Option<Legacy>, addr: AsciiString, d: Destination)
    requires addr != "" && Trim(addr) == addr && base58(addr).Some?
    ensures MainnetDestination(base58, addr) == Ok(d) <==>
              var Legacy(hash, version) := base58(addr).value;
              |hash| == 20 &&
              ((version == 120 && d == Destination(P2PKH, [0x76, 0xa9, 0x14] + hash + [0x88, 0xac]))
               || (version == 102 && d == Destination(P2SH, [0xa9, 0x14] + hash + [0x87])))
  {
    hide Trim;
  }

  /** A string is never both a Taproot destination and an owned address. */
  lemma TaprootNeverOwned(base58: AsciiString -> Option<Legacy>, addr: AsciiString)
    requires MainnetDestination(base58, addr).Ok? && MainnetDestination(base58, addr).value.kind == P2TR
    ensures DecodeAddress(addr) == Err(TaprootDetected)
  {
    hide Trim, Decode, Regroup.ToEight, WitnessScript;
  }

  // ------------------------------------------------------- owned by which key

  /** The constant-time comparison of MatchesPublicKey. */
  method SameBytes(decoded: seq<bv8>, expected: seq<bv8>) returns (same: bool)
    ensures same <==> decoded == expected
  {
    if |decoded| != |expected| {
      return false;
    }
    var diff: bv8 := 0;
    for i := 0 to |expected|
      invariant diff == 0 <==> decoded[..i] == expected[..i]
    {
      assert decoded[..i + 1] == decoded[..i] + [decoded[i]];
      assert expected[..i + 1] == expected[..i] + [expected[i]];
      diff := diff | (decoded[i] ^ expected[i]);
    }
    assert decoded[..|expected|] == decoded && expected[..|expected|] == expected;
    return diff == 0;
  }

}
