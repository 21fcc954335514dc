/**
 Networks, address types and errors of the base32 address format.
 */
module AddressTypes {
  import opened AddressText
  import opened Machine
  import opened Wrappers

  type U64 = x: nat | x < TWO_64

  datatype Network = Main | Test | Id(id: U64)

  datatype AddressType = Builtin | Contract | Null | User | Unknown

  datatype EncodingError = InvalidLength(length: nat) | InvalidNetworkId(id: U64)

  datatype EncodeOutcome = Encoded(text: string) | NotEncoded(error: EncodingError)

  datatype DecodingError =
    | BadLength(length: nat)
    | NoPrefix
    | InvalidPrefix(prefix: string)
    | OptionParseError(option: string)
    | AddressTypeMismatch(expected: AddressType, got: AddressType)
    | ChecksumFailed(checksum: bv64)
    | InvalidChar(c: char)
    | BadPadding(fromBits: nat, paddingBits: nat, padding: nat)
    | VersionNotRecognized(version: nat)
    | MixedCase

  datatype DecodedRawAddress = DecodedRawAddress(
    inputBase32Address: string,
    parsedAddressBytes: seq<nat>,
    hexAddress: Option<seq<nat>>,
    network: Network)

  /** `Panicked` is the out-of-range slice or index of a payload too short to hold a version byte. */
  datatype DecodeOutcome = Decoded(address: DecodedRawAddress) | Failed(error: DecodingError) | Panicked

  // ---------------------------------------------------------------- network prefixes

  const RESERVED_NETWORK_IDS: set<nat> := {1, 1029}

  function ToPrefix(network: Network): Option<string> {
    match network
    case Main => Some("cfx")
    case Test => Some("cfxtest")
    case Id(id) => if id in RESERVED_NETWORK_IDS then None else Some("net" + Decimal(id))
  }

  function FromPrefix(prefix: string): (r: Option<Network>) {
    if prefix == "cfx" then Some(Main)
    else if prefix == "cfxtest" then Some(Test)
    else if "net" <= prefix then
      (match ParseU64(prefix[3..])
       case None => None
       case Some(id) =>
         ParsedBelow(if prefix[3..] != "" && prefix[3] == '+' then prefix[4..] else prefix[3..]);
         if id in RESERVED_NETWORK_IDS then None else Some(Id(id)))
    else None
  }

  /** Reading a written prefix gives the network back. */
  lemma PrefixRoundTrip(network: Network)
    requires ToPrefix(network).Some?
    ensures FromPrefix(ToPrefix(network).value) == Some(network)
  {
    if network.Id? {
      var p := ToPrefix(network).value;
      ParseDecimal(network.id);
      assert p[0] == 'n' && p[3..] == Decimal(network.id);
    }
  }

  /** Only encodable networks are ever read. */
  lemma ReadNetworksAreEncodable(prefix: string)
    requires FromPrefix(prefix).Some?
    ensures ToPrefix(FromPrefix(prefix).value).Some?
  {
  }

  lemma PrefixIsPlain(network: Network)
    requires ToPrefix(network).Some?
    ensures Plain(ToPrefix(network).value) && ':' !in ToPrefix(network).value
  {
  }

  /** The texts the printer writes as prefixes: the two names, or "net" and a number in plain digits. */
  predicate CanonicalPrefix(prefix: string) {
    prefix == "cfx" || prefix == "cfxtest" || ("net" <= prefix && PlainNumber(prefix[3..]))
  }

  /** A prefix that can be read is the one printed for its network exactly if it is canonical. */
  lemma CanonicalExactly(prefix: string)
    requires FromPrefix(prefix).Some?
    ensures ToPrefix(FromPrefix(prefix).value) == Some(prefix) <==> CanonicalPrefix(prefix)
  {
    var network := FromPrefix(prefix).value;
    if network.Id? {
      var digits, printed := prefix[3..], "net" + Decimal(network.id);
      assert prefix == "net" + digits && printed[3..] == Decimal(network.id);
      DecimalIsPlain(network.id);
      if PlainNumber(digits) { DecimalOfParse(digits); }
    }
  }

  // ---------------------------------------------------------------- address types

  function TypeName(t: AddressType): string {
    match t
    case Builtin => "builtin"
    case Contract => "contract"
    case Null => "null"
    case User => "user"
    case Unknown => "unknown"
  }

  function ParseType(text: string): AddressType {
    if text == "builtin" then Builtin
    else if text == "contract" then Contract
    else if text == "null" then Null
    else if text == "user" then User
    else Unknown
  }

  /** The type named by the high four bits of the first byte. */
  function TypeOf(address: seq<nat>): AddressType
    requires address != []
  {
    var typeBits := address[0] - address[0] % 16;
    if typeBits == 0x00 then (if IsNullAddress(address) then Null else Builtin)
    else if typeBits == 0x80 then Contract
    else if typeBits == 0x10 then User
    else Unknown
  }

  predicate IsNullAddress(address: seq<nat>) {
    forall i :: 0 <= i < |address| ==> address[i] == 0
  }

  lemma TypeNameRoundTrip(t: AddressType)
    ensures ParseType(TypeName(t)) == t
    ensures Plain(TypeName(t)) && ':' !in TypeName(t) && '.' !in TypeName(t)
  {
  }

  // ---------------------------------------------------------------- sizes

  /** The version byte of each accepted address length. */
  function VersionByte(length: nat): Option<nat> {
    match length
    case 20 => Some(0)
    case 24 => Some(1)
    case 28 => Some(2)
    case 32 => Some(3)
    case 40 => Some(4)
    case 48 => Some(5)
    case 56 => Some(6)
    case 64 => Some(7)
    case _ => None
  }

  /** The length that the size bits of a version byte promise. */
  function SizeLength(versionSize: nat): nat
    requires versionSize < 8
  {
    match versionSize
    case 0 => 20
    case 1 => 24
    case 2 => 28
    case 3 => 32
    case 4 => 40
    case 5 => 48
    case 6 => 56
    case 7 => 64
  }
}
