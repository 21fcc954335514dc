/**
 The printer and the parser of base32 addresses.
 */
module AddressCodec {
  import opened AddressText
  import opened AddressTypes
  import opened BitStrings
  import opened Charset
  import opened ConvertBits
  import opened Polymod
  import opened Sequences
  import opened Wrappers

  datatype EncodingOptions = Simple | QrCode

  /** The low five bits of every character of the prefix, then a zero. */
  function ExpandPrefix(prefix: string): (r: seq<nat>)
    ensures |r| == |prefix| + 1 && Symbols(r)
  {
    seq(|prefix|, i requires 0 <= i < |prefix| => prefix[i] as int % 32) + [0]
  }

  function SymbolText(ds: seq<nat>): (s: string)
    requires Symbols(ds)
    ensures |s| == |ds| && forall i :: 0 <= i < |s| ==> s[i] == CHARSET[ds[i]]
  {
    seq(|ds|, i requires 0 <= i < |ds| => CHARSET[ds[i]])
  }

  predicate MixesCases(k: Casing, text: string) { Any(k.isLowercase, text) && Any(k.isUppercase, text) }

  // ---------------------------------------------------------------- printing

  lemma WidthFacts()
    ensures Pow2(5) == 32 && Pow2(8) == 256
  {
  }

  /** The payload of an address as 5-bit symbols. */
  function PayloadSymbols(version: nat, raw: seq<nat>): (ds: seq<nat>)
    ensures Symbols(ds)
  {
    var ds := Regroup([version] + raw, 8, 5, true).symbols;
    assert Symbols(ds) by {
      WidthFacts();
      var bits := Unpack([version] + raw, 8);
      var left := |bits| % 5;
      PackFits(bits + Zeros(if left == 0 then 0 else 5 - left), 5);
    }
    ds
  }

  /** Payload and check symbols as text. */
  function Body(prefix: string, version: nat, raw: seq<nat>): string {
    var ds := PayloadSymbols(version, raw);
    SymbolText(ds + CheckSymbols(ExpandPrefix(prefix) + ds))
  }

  /** The optional part that the encoder prints. */
  function TypeOptions(raw: seq<nat>, options: EncodingOptions): seq<string>
    requires raw != []
  {
    if options == QrCode then ["type." + TypeName(TypeOf(raw))] else []
  }

  /** The address in lower case: its parts with colons between them. */
  function PlainText(prefix: string, options: seq<string>, body: string): string
    requires |options| <= 1
  {
    if options == [] then prefix + ":" + body
    else prefix + ":" + (options[0] + ":" + body)
  }

  /** QR codes are printed in capitals. */
  function InCase(text: string, options: EncodingOptions): string {
    if options == QrCode then UpperAll(text) else text
  }

  /** `cfx_addr_encode`. */
  function Encode(raw: seq<nat>, network: Network, options: EncodingOptions): EncodeOutcome {
    match VersionByte(|raw|)
    case None => NotEncoded(InvalidLength(|raw|))
    case Some(version) =>
      match ToPrefix(network)
      case None => NotEncoded(InvalidNetworkId(network.id))
      case Some(prefix) =>
        Encoded(InCase(PlainText(prefix, TypeOptions(raw, options), Body(prefix, version, raw)), options))
  }

  // ---------------------------------------------------------------- parsing

  datatype OptionsOutcome = Options(addressType: Option<AddressType>) | BadOption(option: string)

  /** The optional `key.value` parts; the last `type` wins, other keys are ignored. */
  function ParseOptions(parts: seq<string>): OptionsOutcome {
    if parts == [] then Options(None)
    else
      match ParseOptions(parts[..|parts| - 1])
      case BadOption(o) => BadOption(o)
      case Options(t) =>
        var kv := Split(parts[|parts| - 1], '.');
        if |kv| != 2 then BadOption(parts[|parts| - 1])
        else if kv[0] == "type" then Options(Some(ParseType(kv[1])))
        else Options(t)
  }

  datatype SymbolsOutcome = SymbolsOf(symbols: seq<nat>) | BadChar(c: char)

  function ReadSymbols(s: string): (r: SymbolsOutcome)
    ensures r.SymbolsOf? ==> |r.symbols| == |s| && Symbols(r.symbols)
    ensures r.SymbolsOf? ==> forall i :: 0 <= i < |s| ==> CharIndex(s[i]) == Some(r.symbols[i])
  {
    if s == "" then SymbolsOf([])
    else
      match ReadSymbols(s[..|s| - 1])
      case BadChar(c) => BadChar(c)
      case SymbolsOf(ds) =>
        match CharIndex(s[|s| - 1])
        case None => BadChar(s[|s| - 1])
        case Some(d) => SymbolsOf(ds + [d])
  }

  /** The checks on the bytes of the payload. */
  function CheckPayload(input: string, network: Network, addressType: Option<AddressType>, payload: seq<nat>)
    : DecodeOutcome
  {
    if payload == [] then Panicked
    else
      var version, body := payload[0], payload[1..];
      var versionSize := version % 8;
      if |body| != SizeLength(versionSize) then Failed(BadLength(|body|))
      else if version >= 8 then Failed(VersionNotRecognized(version))
      else if versionSize == 0 && addressType.Some? && TypeOf(body) != addressType.value then
        Failed(AddressTypeMismatch(addressType.value, TypeOf(body)))
      else
        Decoded(DecodedRawAddress(input, body, if versionSize == 0 then Some(body) else None, network))
  }

  /** From the payload symbols on. */
  function DecodeSymbols(input: string, prefix: string, network: Network, addressType: Option<AddressType>,
                         ds: seq<nat>): DecodeOutcome
    requires Symbols(ds)
  {
    var checksum := Checksum(ExpandPrefix(prefix) + ds);
    if checksum != 0 then Failed(ChecksumFailed(checksum))
    else if |ds| < 8 then Panicked
    else
      match Regroup(ds[..|ds| - 8], 5, 8, false)
      case InvalidPadding(from, count, padding) => Failed(BadPadding(from, count, padding))
      case Converted(payload) => CheckPayload(input, network, addressType, payload)
  }

  /** From the payload text on. */
  function DecodeBody(k: Casing, input: string, prefix: string, network: Network, addressType: Option<AddressType>,
                      text: string): DecodeOutcome
  {
    if text == "" then Failed(BadLength(0))
    else if MixesCases(k, text) then Failed(MixedCase)
    else
      match ReadSymbols(text)
      case BadChar(c) => Failed(InvalidChar(c))
      case SymbolsOf(ds) => DecodeSymbols(input, prefix, network, addressType, ds)
  }

  /** From the parts between colons on. */
  function DecodeParts(k: Casing, input: string, parts: seq<string>): DecodeOutcome {
    if |parts| < 2 then Failed(NoPrefix)
    else
      match FromPrefix(parts[0])
      case None => Failed(InvalidPrefix(parts[0]))
      case Some(network) =>
        match ParseOptions(parts[1..|parts| - 1])
        case BadOption(o) => Failed(OptionParseError(o))
        case Options(addressType) => DecodeBody(k, input, parts[0], network, addressType, parts[|parts| - 1])
  }

  /** `cfx_addr_decode` as one expression. */
  function Decode(k: Casing, input: string): DecodeOutcome {
    if MixesCases(k, input) then Failed(MixedCase)
    else DecodeParts(k, input, Split(k.toLowercase(input), ':'))
  }

  // ---------------------------------------------------------------- printing, then parsing

  lemma {:induction false} ReadSymbolText(ds: seq<nat>)
    requires Symbols(ds)
    ensures ReadSymbols(SymbolText(ds)) == SymbolsOf(ds)
  {
    if ds != [] {
      var init, last := ds[..|ds| - 1], ds[|ds| - 1];
      ReadSymbolText(init);
      assert ds == init + [last];
      TextConcat(init, [last]);
      SymbolRead(last);
      ReadOneMore(SymbolText(init), init, CHARSET[last], last);
    }
  }

  lemma ReadOneMore(s: string, ds: seq<nat>, c: char, d: nat)
    requires ReadSymbols(s) == SymbolsOf(ds) && CharIndex(c) == Some(d)
    ensures ReadSymbols(s + [c]) == SymbolsOf(ds + [d])
  {
    assert (s + [c])[..|s|] == s;
  }

  lemma SymbolTextIsPlain(ds: seq<nat>)
    requires Symbols(ds)
    ensures Plain(SymbolText(ds)) && ':' !in SymbolText(ds)
  {
    forall i | 0 <= i < |ds| ensures PlainChar(CHARSET[ds[i]]) && CHARSET[ds[i]] != ':' {
      CharIndexInverts(ds[i], 'a');
    }
  }

  /** The bytes come back from the payload symbols. */
  lemma PayloadRoundTrip(version: nat, raw: seq<nat>)
    requires version < 256 && Bytes(raw)
    ensures Regroup(PayloadSymbols(version, raw), 5, 8, false) == Converted([version] + raw)
  {
    WidthFacts();
    PaddedThenUnpadded([version] + raw, 8, 5);
  }

  /** Parsing the body of a printed address. */
  lemma BodyRoundTrip(k: Casing, input: string, prefix: string, network: Network, addressType: Option<AddressType>,
                      version: nat, raw: seq<nat>)
    requires Lawful(k) && version < 256 && Bytes(raw)
    ensures DecodeBody(k, input, prefix, network, addressType, Body(prefix, version, raw))
            == CheckPayload(input, network, addressType, [version] + raw)
  {
    var ds := PayloadSymbols(version, raw);
    var check := CheckSymbols(ExpandPrefix(prefix) + ds);
    TextRoundTrip(k, ds + check);
    PayloadRoundTrip(version, raw);
    SymbolsRoundTrip(input, prefix, network, addressType, ds);
  }

  lemma TextRoundTrip(k: Casing, ds: seq<nat>)
    requires Lawful(k) && Symbols(ds)
    ensures ReadSymbols(SymbolText(ds)) == SymbolsOf(ds)
    ensures !Any(k.isUppercase, SymbolText(ds))
  {
    SymbolTextIsPlain(ds);
    PlainCase(k, SymbolText(ds));
    ReadSymbolText(ds);
  }

  lemma SymbolsRoundTrip(input: string, prefix: string, network: Network, addressType: Option<AddressType>,
                         ds: seq<nat>)
    requires Symbols(ds) && Regroup(ds, 5, 8, false).Converted?
    ensures var all := ds + CheckSymbols(ExpandPrefix(prefix) + ds);
            DecodeSymbols(input, prefix, network, addressType, all)
            == CheckPayload(input, network, addressType, Regroup(ds, 5, 8, false).symbols)
  {
    var all := ds + CheckSymbols(ExpandPrefix(prefix) + ds);
    PrintedChecksum(prefix, ds);
    assert all[..|all| - 8] == ds;
  }

  lemma PrintedChecksum(prefix: string, ds: seq<nat>)
    requires Symbols(ds)
    ensures Checksum(ExpandPrefix(prefix) + (ds + CheckSymbols(ExpandPrefix(prefix) + ds))) == 0
  {
    var e := ExpandPrefix(prefix);
    CheckSymbolsVerify(e + ds);
    Associative(e, ds, CheckSymbols(e + ds));
  }

  lemma VersionChecks(input: string, network: Network, addressType: Option<AddressType>, raw: seq<nat>)
    requires VersionByte(|raw|).Some?
    requires addressType.Some? ==> addressType.value == TypeOf(raw)
    ensures CheckPayload(input, network, addressType, [VersionByte(|raw|).value] + raw)
            == Decoded(DecodedRawAddress(input, raw, if |raw| == 20 then Some(raw) else None, network))
  {
    assert ([VersionByte(|raw|).value] + raw)[1..] == raw;
  }

  lemma BodyIsPlain(prefix: string, version: nat, raw: seq<nat>)
    ensures Plain(Body(prefix, version, raw)) && ':' !in Body(prefix, version, raw)
  {
    var ds := PayloadSymbols(version, raw);
    SymbolTextIsPlain(ds + CheckSymbols(ExpandPrefix(prefix) + ds));
  }

  /** The parts of a printed address. */
  lemma PartsOfPrinted(prefix: string, options: seq<string>, body: string)
    requires |options| <= 1 && (options != [] ==> Plain(options[0]) && ':' !in options[0])
    requires Plain(prefix) && Plain(body) && ':' !in prefix && ':' !in body
    ensures Plain(PlainText(prefix, options, body))
    ensures Split(PlainText(prefix, options, body), ':') == [prefix] + options + [body]
  {
    SplitNone(body, ':');
    if options == [] {
      SplitAt(prefix, ':', body);
    } else {
      SplitAt(options[0], ':', body);
      SplitAt(prefix, ':', options[0] + ":" + body);
    }
  }

  lemma PrintedTypeOption(t: AddressType)
    ensures ParseOptions([]) == Options(None)
    ensures ParseOptions(["type." + TypeName(t)]) == Options(Some(t))
    ensures Plain("type." + TypeName(t)) && ':' !in "type." + TypeName(t)
  {
    TypeNameRoundTrip(t);
    SplitAt("type", '.', TypeName(t));
    SplitNone(TypeName(t), '.');
    assert "type." + TypeName(t) == "type" + "." + TypeName(t);
    assert ["type." + TypeName(t)][..0] == [];
  }

  /** Decoding whatever the encoder prints gives the bytes and the network back. */
  lemma DecodeEncode(k: Casing, raw: seq<nat>, network: Network, options: EncodingOptions)
    requires Lawful(k) && Bytes(raw) && VersionByte(|raw|).Some? && ToPrefix(network).Some?
    ensures Encode(raw, network, options).Encoded?
    ensures var text := Encode(raw, network, options).text;
            Decode(k, text)
            == Decoded(DecodedRawAddress(text, raw, if |raw| == 20 then Some(raw) else None, network))
  {
    DecodeText(k, raw, network, options, ToPrefix(network).value, VersionByte(|raw|).value);
  }

  lemma DecodeText(k: Casing, raw: seq<nat>, network: Network, options: EncodingOptions, prefix: string, version: nat)
    requires Lawful(k) && Bytes(raw) && VersionByte(|raw|) == Some(version) && ToPrefix(network) == Some(prefix)
    ensures var text := InCase(PlainText(prefix, TypeOptions(raw, options), Body(prefix, version, raw)), options);
            Decode(k, text)
            == Decoded(DecodedRawAddress(text, raw, if |raw| == 20 then Some(raw) else None, network))
  {
    var body := Body(prefix, version, raw);
    PrefixIsPlain(network);
    PrefixRoundTrip(network);
    BodyIsPlain(prefix, version, raw);
    DecodePrinted(k, prefix, network, raw, options, body);
    var t := if options == QrCode then Some(TypeOf(raw)) else None;
    PrintedBody(k, InCase(PlainText(prefix, TypeOptions(raw, options), body), options), prefix, network, t, raw);
  }

  /** Parsing a printed address comes down to parsing its body. */
  lemma DecodePrinted(k: Casing, prefix: string, network: Network, raw: seq<nat>, options: EncodingOptions,
                      body: string)
    requires Lawful(k) && raw != [] && FromPrefix(prefix) == Some(network)
    requires Plain(prefix) && Plain(body) && ':' !in prefix && ':' !in body
    ensures var text := InCase(PlainText(prefix, TypeOptions(raw, options), body), options);
            Decode(k, text)
            == DecodeBody(k, text, prefix, network, if options == QrCode then Some(TypeOf(raw)) else None, body)
  {
    var os := TypeOptions(raw, options);
    PrintedTypeOption(TypeOf(raw));
    PartsOfPrinted(prefix, os, body);
    var plain := PlainText(prefix, os, body);
    CaseOfPrinted(k, plain, options);
    var t := if options == QrCode then Some(TypeOf(raw)) else None;
    KnownParts(k, InCase(plain, options), prefix, network, os, t, body);
  }

  lemma PrintedBody(k: Casing, input: string, prefix: string, network: Network, t: Option<AddressType>, raw: seq<nat>)
    requires Lawful(k) && Bytes(raw) && VersionByte(|raw|).Some? && (t.Some? ==> t.value == TypeOf(raw))
    ensures DecodeBody(k, input, prefix, network, t, Body(prefix, VersionByte(|raw|).value, raw))
            == Decoded(DecodedRawAddress(input, raw, if |raw| == 20 then Some(raw) else None, network))
  {
    BodyRoundTrip(k, input, prefix, network, t, VersionByte(|raw|).value, raw);
    VersionChecks(input, network, t, raw);
  }

  lemma CaseOfPrinted(k: Casing, plain: string, options: EncodingOptions)
    requires Lawful(k) && Plain(plain)
    ensures var text := InCase(plain, options);
            !MixesCases(k, text) && k.toLowercase(text) == plain
  {
    PlainCase(k, plain);
  }

  lemma KnownParts(k: Casing, input: string, prefix: string, network: Network, options: seq<string>,
                   t: Option<AddressType>, body: string)
    requires FromPrefix(prefix) == Some(network) && ParseOptions(options) == Options(t)
    ensures DecodeParts(k, input, [prefix] + options + [body]) == DecodeBody(k, input, prefix, network, t, body)
  {
    var parts := [prefix] + options + [body];
    assert parts[1..|parts| - 1] == options;
  }

  // ---------------------------------------------------------------- parsing, then printing

  /** An accepted payload is the one the printer writes for the bytes read from it. */
  lemma AcceptedSymbols(input: string, prefix: string, network: Network, t: Option<AddressType>, ds: seq<nat>)
    requires Symbols(ds) && DecodeSymbols(input, prefix, network, t, ds).Decoded?
    ensures DecodeSymbols(input, prefix, network, t, ds).address.network == network
    ensures var bytes := DecodeSymbols(input, prefix, network, t, ds).address.parsedAddressBytes;
            && VersionByte(|bytes|).Some? && bytes != []
            && Body(prefix, VersionByte(|bytes|).value, bytes) == SymbolText(ds)
  {
    var five, check := ds[..|ds| - 8], ds[|ds| - 8..];
    assert ds == five + check;
    var payload := Regroup(five, 5, 8, false).symbols;
    assert DecodeSymbols(input, prefix, network, t, ds) == CheckPayload(input, network, t, payload);
    AcceptedBytes(input, network, t, payload);
    var bytes := CheckPayload(input, network, t, payload).address.parsedAddressBytes;
    AcceptedPayload(five, VersionByte(|bytes|).value, bytes);
    AcceptedCheck(prefix, five, check);
  }

  lemma AcceptedBytes(input: string, network: Network, t: Option<AddressType>, payload: seq<nat>)
    requires CheckPayload(input, network, t, payload).Decoded?
    ensures var bytes := CheckPayload(input, network, t, payload).address.parsedAddressBytes;
            VersionByte(|bytes|).Some? && bytes != [] && payload == [VersionByte(|bytes|).value] + bytes
  {
  }

  lemma AcceptedPayload(five: seq<nat>, version: nat, bytes: seq<nat>)
    requires Symbols(five) && Regroup(five, 5, 8, false) == Converted([version] + bytes)
    ensures Bytes([version] + bytes) && PayloadSymbols(version, bytes) == five
  {
    WidthFacts();
    UnpaddedThenPadded(five, 5, 8);
  }

  lemma AcceptedCheck(prefix: string, five: seq<nat>, check: seq<nat>)
    requires Symbols(five) && Symbols(check) && |check| == 8
    requires Checksum(ExpandPrefix(prefix) + (five + check)) == 0
    ensures check == CheckSymbols(ExpandPrefix(prefix) + five)
  {
    var e := ExpandPrefix(prefix);
    Associative(e, five, check);
    CheckSymbolsUnique(e + five, check);
  }

  lemma ReadBack(text: string)
    requires NoCapital(text) && ReadSymbols(text).SymbolsOf?
    ensures SymbolText(ReadSymbols(text).symbols) == text
  {
    var ds := ReadSymbols(text).symbols;
    forall i | 0 <= i < |text| ensures CHARSET[ds[i]] == text[i] {
      CharIndexInverts(ds[i], text[i]);
    }
  }

  /** The encoder prints the address as this text, up to case. */
  predicate PrintsAs(k: Casing, bytes: seq<nat>, network: Network, options: EncodingOptions, text: string) {
    var e := Encode(bytes, network, options);
    e.Encoded? && k.toLowercase(e.text) == text
  }

  /** The option that names the type of an address. */
  function TypeOption(bytes: seq<nat>): string {
    if bytes == [] then "" else "type." + TypeName(TypeOf(bytes))
  }

  /**
   The text is printed for the address exactly if it has no options and a canonical prefix, and
   as a QR code exactly if its one option is the type in full.
   */
  predicate PrintedExactly(k: Casing, bytes: seq<nat>, network: Network, text: string) {
    var parts := Split(text, ':');
    && (PrintsAs(k, bytes, network, Simple, text) <==> |parts| == 2 && CanonicalPrefix(parts[0]))
    && (PrintsAs(k, bytes, network, QrCode, text)
        <==> |parts| == 3 && parts[1] == TypeOption(bytes) && CanonicalPrefix(parts[0]))
  }

  /** Which accepted texts are printed back as themselves, up to case. */
  lemma EncodeDecode(k: Casing, input: string, a: DecodedRawAddress)
    requires Lawful(k) && Decode(k, input) == Decoded(a)
    ensures PrintedExactly(k, a.parsedAddressBytes, a.network, k.toLowercase(input))
  {
    AcceptedInput(k, input, a);
    PartsPrintedBack(k, a.parsedAddressBytes, a.network, k.toLowercase(input));
  }

  /** What is known of an accepted text: its prefix is of its network, its payload is of its bytes. */
  ghost predicate WrittenFor(bytes: seq<nat>, network: Network, text: string) {
    var parts := Split(text, ':');
    && |parts| >= 2 && FromPrefix(parts[0]) == Some(network)
    && VersionByte(|bytes|).Some? && bytes != []
    && Body(parts[0], VersionByte(|bytes|).value, bytes) == parts[|parts| - 1]
  }

  lemma AcceptedInput(k: Casing, input: string, a: DecodedRawAddress)
    requires Lawful(k) && Decode(k, input) == Decoded(a)
    ensures WrittenFor(a.parsedAddressBytes, a.network, k.toLowercase(input))
  {
    var parts := Split(k.toLowercase(input), ':');
    assert Decode(k, input) == DecodeParts(k, input, parts);
    LastPartHasNoCapital(k, input);
    AcceptedParts(k, input, parts);
  }

  lemma LastPartHasNoCapital(k: Casing, input: string)
    requires Lawful(k)
    ensures var parts := Split(k.toLowercase(input), ':'); NoCapital(parts[|parts| - 1])
  {
    var text := k.toLowercase(input);
    var n := |Split(text, ':')| - 1;
    var last := Split(text, ':')[n];
    forall i | 0 <= i < |last| ensures !IsUpperAscii(last[i]) { PiecesOf(text, ':', n, last[i]); }
  }

  lemma PartsPrintedBack(k: Casing, bytes: seq<nat>, network: Network, text: string)
    requires Lawful(k) && WrittenFor(bytes, network, text)
    ensures PrintedExactly(k, bytes, network, text)
  {
    var parts, version := Split(text, ':'), VersionByte(|bytes|).value;
    ReadNetworksAreEncodable(parts[0]);
    CanonicalExactly(parts[0]);
    var prefix := ToPrefix(network).value;
    PrintedBack(k, bytes, network, Simple, prefix, version, text);
    PrintedBack(k, bytes, network, QrCode, prefix, version, text);
    PartsAre(parts, prefix, [], Body(prefix, version, bytes));
    PartsAre(parts, prefix, [TypeOption(bytes)], Body(prefix, version, bytes));
  }

  lemma PartsAre(parts: seq<string>, prefix: string, os: seq<string>, body: string)
    requires |os| <= 1
    ensures parts == [prefix] + os + [body] <==>
              && |parts| == 2 + |os| && parts[0] == prefix
              && (os != [] ==> parts[1] == os[0]) && parts[|parts| - 1] == body
  {
  }

  lemma AcceptedParts(k: Casing, input: string, parts: seq<string>)
    requires |parts| >= 2 && NoCapital(parts[|parts| - 1]) && DecodeParts(k, input, parts).Decoded?
    ensures var a := DecodeParts(k, input, parts).address;
            && FromPrefix(parts[0]) == Some(a.network)
            && VersionByte(|a.parsedAddressBytes|).Some? && a.parsedAddressBytes != []
            && Body(parts[0], VersionByte(|a.parsedAddressBytes|).value, a.parsedAddressBytes) == parts[|parts| - 1]
  {
    var network := FromPrefix(parts[0]).value;
    var t := ParseOptions(parts[1..|parts| - 1]).addressType;
    assert DecodeParts(k, input, parts) == DecodeBody(k, input, parts[0], network, t, parts[|parts| - 1]);
    AcceptedText(k, input, parts[0], network, t, parts[|parts| - 1]);
  }

  lemma AcceptedText(k: Casing, input: string, prefix: string, network: Network, t: Option<AddressType>, text: string)
    requires NoCapital(text) && DecodeBody(k, input, prefix, network, t, text).Decoded?
    ensures var a := DecodeBody(k, input, prefix, network, t, text).address;
            && a.network == network && VersionByte(|a.parsedAddressBytes|).Some? && a.parsedAddressBytes != []
            && Body(prefix, VersionByte(|a.parsedAddressBytes|).value, a.parsedAddressBytes) == text
  {
    ReadBack(text);
    var ds := ReadSymbols(text).symbols;
    assert DecodeBody(k, input, prefix, network, t, text) == DecodeSymbols(input, prefix, network, t, ds);
    AcceptedSymbols(input, prefix, network, t, ds);
  }

  /** A text is the printed form exactly if its parts are the printed ones. */
  lemma PrintedBack(k: Casing, bytes: seq<nat>, network: Network, options: EncodingOptions,
                    prefix: string, version: nat, text: string)
    requires Lawful(k) && ToPrefix(network) == Some(prefix) && VersionByte(|bytes|) == Some(version) && bytes != []
    ensures PrintsAs(k, bytes, network, options, text) <==>
              Split(text, ':') == [prefix] + TypeOptions(bytes, options) + [Body(prefix, version, bytes)]
  {
    var os, body := TypeOptions(bytes, options), Body(prefix, version, bytes);
    var plain := PlainText(prefix, os, body);
    PrefixIsPlain(network);
    BodyIsPlain(prefix, version, bytes);
    PrintedTypeOption(TypeOf(bytes));
    PartsInCase(k, prefix, os, body, options);
    assert Encode(bytes, network, options) == Encoded(InCase(plain, options));
    SplitInjective(plain, text, ':');
  }

  lemma PartsInCase(k: Casing, prefix: string, os: seq<string>, body: string, options: EncodingOptions)
    requires Lawful(k) && |os| <= 1 && (os != [] ==> Plain(os[0]) && ':' !in os[0])
    requires Plain(prefix) && Plain(body) && ':' !in prefix && ':' !in body
    ensures k.toLowercase(InCase(PlainText(prefix, os, body), options)) == PlainText(prefix, os, body)
    ensures Split(PlainText(prefix, os, body), ':') == [prefix] + os + [body]
  {
    PartsOfPrinted(prefix, os, body);
    CaseOfPrinted(k, PlainText(prefix, os, body), options);
  }

  /** Every address under a prefix that can be read and is not canonical is read and then printed differently. */
  lemma PrintedDifferently(k: Casing, prefix: string, network: Network, raw: seq<nat>)
    requires Lawful(k) && Bytes(raw) && |raw| == 20
    requires FromPrefix(prefix) == Some(network) && Plain(prefix) && ':' !in prefix && !CanonicalPrefix(prefix)
    ensures var text := prefix + ":" + Body(prefix, 0, raw);
            && Decode(k, text) == Decoded(DecodedRawAddress(text, raw, Some(raw), network))
            && !PrintsAs(k, raw, network, Simple, text)
  {
    ReadUnder(k, prefix, network, raw);
    var body := Body(prefix, 0, raw);
    BodyIsPlain(prefix, 0, raw);
    SplitAt(prefix, ':', body);
    SplitNone(body, ':');
    PartsPrintedBack(k, raw, network, prefix + ":" + body);
  }

  lemma ReadUnder(k: Casing, prefix: string, network: Network, raw: seq<nat>)
    requires Lawful(k) && Bytes(raw) && |raw| == 20
    requires FromPrefix(prefix) == Some(network) && Plain(prefix) && ':' !in prefix
    ensures var text := prefix + ":" + Body(prefix, 0, raw);
            Decode(k, text) == Decoded(DecodedRawAddress(text, raw, Some(raw), network))
  {
    var body := Body(prefix, 0, raw);
    BodyIsPlain(prefix, 0, raw);
    DecodePrinted(k, prefix, network, raw, Simple, body);
    PrintedBody(k, prefix + ":" + body, prefix, network, None, raw);
  }

  /** For instance network 7 under "net007" or "net+7". */
  lemma ReadsSeven()
    ensures FromPrefix("net007") == Some(Id(7)) && Plain("net007") && ':' !in "net007" && !CanonicalPrefix("net007")
    ensures FromPrefix("net+7") == Some(Id(7)) && Plain("net+7") && ':' !in "net+7" && !CanonicalPrefix("net+7")
  {
    assert "net007"[3..] == "007" && "net+7"[3..] == "+7" && "+7"[1..] == "7";
    assert "007"[..2] == "00" && "00"[..1] == "0" && "0"[..0] == "" && "7"[..0] == "";
    assert ParseDigits("0") == Some(0) && ParseDigits("00") == Some(0) && ParseDigits("7") == Some(7);
  }

  // ---------------------------------------------------------------- where the parser panics

  /** Everything before the payload is in order, and the payload is at most eight symbols that check out. */
  predicate PanicText(k: Casing, input: string) {
    var parts := Split(k.toLowercase(input), ':');
    && !MixesCases(k, input) && |parts| >= 2
    && FromPrefix(parts[0]).Some? && ParseOptions(parts[1..|parts| - 1]).Options?
    && PanicPayload(k, parts[0], parts[|parts| - 1])
  }

  predicate PanicPayload(k: Casing, prefix: string, payload: string) {
    && 1 <= |payload| <= 8 && !MixesCases(k, payload) && ReadSymbols(payload).SymbolsOf?
    && Checksum(ExpandPrefix(prefix) + ReadSymbols(payload).symbols) == 0
  }

  /** The parser panics exactly on these texts. */
  lemma PanicsExactly(k: Casing, input: string)
    ensures Decode(k, input) == Panicked <==> PanicText(k, input)
  {
    var parts := Split(k.toLowercase(input), ':');
    if !MixesCases(k, input) {
      assert Decode(k, input) == DecodeParts(k, input, parts);
      PartsPanicExactly(k, input, parts);
    }
  }

  lemma PartsPanicExactly(k: Casing, input: string, parts: seq<string>)
    ensures DecodeParts(k, input, parts) == Panicked <==>
              && |parts| >= 2 && FromPrefix(parts[0]).Some? && ParseOptions(parts[1..|parts| - 1]).Options?
              && PanicPayload(k, parts[0], parts[|parts| - 1])
  {
    if |parts| >= 2 && FromPrefix(parts[0]).Some? && ParseOptions(parts[1..|parts| - 1]).Options? {
      var t := ParseOptions(parts[1..|parts| - 1]).addressType;
      var network, last := FromPrefix(parts[0]).value, parts[|parts| - 1];
      assert DecodeParts(k, input, parts) == DecodeBody(k, input, parts[0], network, t, last);
      BodyPanicsExactly(k, input, parts[0], network, t, last);
    }
  }

  lemma BodyPanicsExactly(k: Casing, input: string, prefix: string, network: Network, t: Option<AddressType>,
                          text: string)
    ensures DecodeBody(k, input, prefix, network, t, text) == Panicked <==> PanicPayload(k, prefix, text)
  {
    if ReadSymbols(text).SymbolsOf? {
      SymbolsPanicExactly(input, prefix, network, t, ReadSymbols(text).symbols);
    }
  }

  /** Of eight symbols, only the check symbols of the bare prefix. */
  lemma EightSymbolsPanic(k: Casing, prefix: string, payload: string)
    requires |payload| == 8 && !MixesCases(k, payload) && ReadSymbols(payload).SymbolsOf?
    ensures PanicPayload(k, prefix, payload) <==> ReadSymbols(payload).symbols == CheckSymbols(ExpandPrefix(prefix))
  {
    CheckSymbolsUnique(ExpandPrefix(prefix), ReadSymbols(payload).symbols);
  }

  /** For instance: any printable prefix followed by its own check symbols. */
  lemma BarePrefixPanics(k: Casing, network: Network)
    requires Lawful(k) && ToPrefix(network).Some?
    ensures var prefix := ToPrefix(network).value;
            Decode(k, prefix + ":" + SymbolText(CheckSymbols(ExpandPrefix(prefix)))) == Panicked
  {
    var prefix := ToPrefix(network).value;
    var ds := CheckSymbols(ExpandPrefix(prefix));
    var body := SymbolText(ds);
    PrefixIsPlain(network);
    PrefixRoundTrip(network);
    SymbolTextIsPlain(ds);
    TextRoundTrip(k, ds);
    CheckSymbolsVerify(ExpandPrefix(prefix));
    DecodePrinted(k, prefix, network, [0], Simple, body);
    BodyPanicsExactly(k, prefix + ":" + body, prefix, network, None, body);
  }

  lemma SymbolsPanicExactly(input: string, prefix: string, network: Network, t: Option<AddressType>, ds: seq<nat>)
    requires Symbols(ds)
    ensures DecodeSymbols(input, prefix, network, t, ds) == Panicked
            <==> Checksum(ExpandPrefix(prefix) + ds) == 0 && |ds| <= 8
  {
    if |ds| >= 8 {
      EmptyPayload(ds[..|ds| - 8]);
    }
  }

  lemma EmptyPayload(five: seq<nat>)
    ensures Regroup(five, 5, 8, false) == Converted([]) <==> five == []
  {
    UnpackLength(five, 5);
    if |five| == 1 {
      assert |Unpack(five, 5)| % 8 == 5;
    }
  }

  // ---------------------------------------------------------------- the printer and the parser, with their loops

  /** `cfx_addr_encode`. */
  method CfxAddrEncode(raw: seq<nat>, network: Network, options: EncodingOptions) returns (r: EncodeOutcome)
    requires Bytes(raw)
    ensures r == Encode(raw, network, options)
  {
    var version := VersionByte(|raw|);
    if version.None? {
      return NotEncoded(InvalidLength(|raw|));
    }
    var prefix := ToPrefix(network);
    if prefix.None? {
      return NotEncoded(InvalidNetworkId(network.id));
    }
    var body := PrintedPayload(prefix.value, version.value, raw);
    if options == Simple {
      return Encoded(prefix.value + ":" + body);
    }
    var text := prefix.value + ":" + ("type." + TypeName(TypeOf(raw)) + ":" + body);
    return Encoded(UpperAll(text));
  }

  /** Payload and check symbols as text, through the loop for the bits. */
  method PrintedPayload(prefix: string, version: nat, raw: seq<nat>) returns (body: string)
    requires version < 256 && Bytes(raw)
    ensures body == Body(prefix, version, raw)
  {
    WidthFacts();
    var payload := ConvertBits.ConvertBits([version] + raw, 8, 5, true);
    var ds := payload.symbols;
    assert ds == PayloadSymbols(version, raw);
    var check := PrintedCheck(prefix, ds);
    TextConcat(ds, check);
    body := SymbolText(ds) + SymbolText(check);
  }

  lemma TextConcat(ds: seq<nat>, es: seq<nat>)
    requires Symbols(ds) && Symbols(es)
    ensures Symbols(ds + es) && SymbolText(ds + es) == SymbolText(ds) + SymbolText(es)
  {
  }

  /** The check symbols, through the loops for the checksum and for its symbols. */
  method PrintedCheck(prefix: string, ds: seq<nat>) returns (check: seq<nat>)
    requires Symbols(ds)
    ensures check == CheckSymbols(ExpandPrefix(prefix) + ds)
  {
    var checksum := Polymod.Polymod(ExpandPrefix(prefix) + ds + EIGHT_ZEROS);
    check := ChecksumSymbols(checksum);
  }

  /** `cfx_addr_decode`. */
  method CfxAddrDecode(k: Casing, input: string) returns (r: DecodeOutcome)
    ensures r == Decode(k, input)
  {
    if MixesCases(k, input) {
      return Failed(MixedCase);
    }
    var parts := Split(k.toLowercase(input), ':');
    if |parts| < 2 {
      return Failed(NoPrefix);
    }
    var prefix := parts[0];
    var network := FromPrefix(prefix);
    if network.None? {
      return Failed(InvalidPrefix(prefix));
    }
    var addressType: Option<AddressType> := None;
    ghost var options := parts[1..|parts| - 1];
    for i := 1 to |parts| - 1
      invariant ParseOptions(parts[1..i]) == Options(addressType)
    {
      assert parts[1..i + 1][..i - 1] == parts[1..i];
      var keyValue := Split(parts[i], '.');
      if |keyValue| != 2 {
        BadOptionStays(parts[1..i + 1], options);
        return Failed(OptionParseError(parts[i]));
      }
      if keyValue[0] == "type" {
        addressType := Some(ParseType(keyValue[1]));
      }
    }
    r := DecodeBodyText(k, input, prefix, network.value, addressType, parts[|parts| - 1]);
  }

  lemma {:induction false} BadOptionStays(some: seq<string>, all: seq<string>)
    requires some <= all && ParseOptions(some).BadOption?
    ensures ParseOptions(all) == ParseOptions(some)
    decreases |all|
  {
    if some != all {
      BadOptionStays(some, all[..|all| - 1]);
    }
  }

  method DecodeBodyText(k: Casing, input: string, prefix: string, network: Network, addressType: Option<AddressType>,
                        text: string)
    returns (r: DecodeOutcome)
    ensures r == DecodeBody(k, input, prefix, network, addressType, text)
  {
    if text == "" {
      return Failed(BadLength(0));
    }
    if MixesCases(k, text) {
      return Failed(MixedCase);
    }
    var read := ReadSymbols(text);
    if read.BadChar? {
      return Failed(InvalidChar(read.c));
    }
    var ds := read.symbols;
    var checksum := Polymod.Polymod(ExpandPrefix(prefix) + ds);
    if checksum != 0 {
      return Failed(ChecksumFailed(checksum));
    }
    r := DecodeChecked(input, prefix, network, addressType, ds);
  }

  /** From symbols with a correct checksum on. */
  method DecodeChecked(input: string, prefix: string, network: Network, addressType: Option<AddressType>, ds: seq<nat>)
    returns (r: DecodeOutcome)
    requires Symbols(ds) && Checksum(ExpandPrefix(prefix) + ds) == 0
    ensures r == DecodeSymbols(input, prefix, network, addressType, ds)
  {
    if |ds| < 8 {
      return Panicked;
    }
    WidthFacts();
    var converted := ConvertBits.ConvertBits(ds[..|ds| - 8], 5, 8, false);
    match converted
    case InvalidPadding(from, count, padding) =>
      return Failed(BadPadding(from, count, padding));
    case Converted(payload) =>
      return CheckPayload(input, network, addressType, payload);
  }
}
