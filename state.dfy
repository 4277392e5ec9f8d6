/**
 * Account records: the tag that discriminates record shapes, the market state's
 * tag check, and the byte layout of a user account's header.
 */
module State {
  import opened Bytes
  import opened Errors

  /** The first field of every record; serialised as its variant index. */
  datatype AccountTag = Uninitialized | DexState | UserAccount

  function TagToByte(t: AccountTag): (b: u8)
    ensures b < 3
  {
    match t
    case Uninitialized => 0
    case DexState => 1
    case UserAccount => 2
  }

  /** Decoding of a tag byte; a byte that names no variant is rejected. */
  function TagFromByte(b: u8): (r: Option<AccountTag>)
    ensures r.Some? <==> b < 3
    ensures r.Some? ==> TagToByte(r.value) == b
  {
    if b == 0 then Some(AccountTag.Uninitialized)
    else if b == 1 then Some(AccountTag.DexState)
    else if b == 2 then Some(AccountTag.UserAccount)
    else None
  }

  lemma TagRoundTrip(t: AccountTag)
    ensures TagFromByte(TagToByte(t)) == Some(t)
  {
  }

  /** The market-wide state. Only the tag has behaviour in this layer. */
  datatype DexState = DexState(
    tag: AccountTag,
    signerNonce: u8,
    baseMint: Pubkey,
    quoteMint: Pubkey,
    baseVault: Pubkey,
    quoteVault: Pubkey,
    orderbook: Pubkey,
    aaobProgram: Pubkey,
    admin: Pubkey,
    creationTimestamp: i64,
    baseVolume: u64,
    quoteVolume: u64,
    accumulatedFees: u64,
    minBaseOrderSize: u64)

  /** A market state is accepted, unchanged, exactly when its tag says DexState. */
  function Check(s: DexState): (r: Result<DexState, ProgramError>)
    ensures r.Ok? <==> s.tag == AccountTag.DexState
    ensures r.Ok? ==> r.value == s
    ensures r.Err? ==> r.error == InvalidAccountData
  {
    if s.tag != AccountTag.DexState then Err(InvalidAccountData) else Ok(s)
  }

  /** The fixed-size prefix of a user account. */
  datatype UserAccountHeader = UserAccountHeader(
    tag: AccountTag,
    market: Pubkey,
    owner: Pubkey,
    baseTokenFree: u64,
    baseTokenLocked: u64,
    quoteTokenFree: u64,
    quoteTokenLocked: u64,
    accumulatedRebates: u64,
    numberOfOrders: u32)

  /** The serialised length of a header: 1 + 32 + 32 + 5 * 8 + 4 bytes. */
  const HeaderLen: nat := 109

  /** The header layout: fields in declaration order, integers little-endian, no padding. */
  function EncodeHeader(h: UserAccountHeader): (b: seq<u8>)
    ensures |b| == HeaderLen
  {
    Pow256Widths();
    [TagToByte(h.tag)] + h.market + h.owner
    + LeEncode(h.baseTokenFree, 8) + LeEncode(h.baseTokenLocked, 8)
    + LeEncode(h.quoteTokenFree, 8) + LeEncode(h.quoteTokenLocked, 8)
    + LeEncode(h.accumulatedRebates, 8) + LeEncode(h.numberOfOrders, 4)
  }

  /** A little-endian u64 field at byte offset `at`. */
  function U64At(b: seq<u8>, at: nat): (x: u64)
    requires at + 8 <= |b|
    ensures LeEncode(x, 8) == b[at..at + 8]
  {
    Pow256Widths();
    LeEncodeDecode(b[at..at + 8]);
    LeDecode(b[at..at + 8])
  }

  /**
   * Reading a header from exactly HeaderLen bytes. All fields have a fixed width,
   * so the only malformed input of the right length is a tag byte naming no variant.
   */
  function DecodeHeader(b: seq<u8>): (r: Result<UserAccountHeader, ProgramError>)
    ensures r.Ok? <==> |b| == HeaderLen && b[0] < 3
    ensures r.Err? ==> r.error == InvalidAccountData
  {
    if |b| != HeaderLen then Err(InvalidAccountData)
    else match TagFromByte(b[0])
      case None => Err(InvalidAccountData)
      case Some(tag) =>
        Pow256Widths();
        LeEncodeDecode(b[105..109]);
        Ok(UserAccountHeader(
          tag, b[1..33], b[33..65],
          U64At(b, 65), U64At(b, 73), U64At(b, 81), U64At(b, 89), U64At(b, 97),
          LeDecode(b[105..109])))
  }

  /** Every header survives a round trip through its byte layout. */
  lemma DecodeEncodeHeader(h: UserAccountHeader)
    ensures DecodeHeader(EncodeHeader(h)) == Ok(h)
  {
    Pow256Widths();
    var b := EncodeHeader(h);
    assert b[0] == TagToByte(h.tag);
    TagRoundTrip(h.tag);
    assert b[1..33] == h.market;
    assert b[33..65] == h.owner;
    LeDecodeEncode(h.baseTokenFree, 8);
    LeDecodeEncode(h.baseTokenLocked, 8);
    LeDecodeEncode(h.quoteTokenFree, 8);
    LeDecodeEncode(h.quoteTokenLocked, 8);
    LeDecodeEncode(h.accumulatedRebates, 8);
    LeDecodeEncode(h.numberOfOrders, 4);
    assert b[65..73] == LeEncode(h.baseTokenFree, 8);
    assert b[73..81] == LeEncode(h.baseTokenLocked, 8);
    assert b[81..89] == LeEncode(h.quoteTokenFree, 8);
    assert b[89..97] == LeEncode(h.quoteTokenLocked, 8);
    assert b[97..105] == LeEncode(h.accumulatedRebates, 8);
    assert b[105..109] == LeEncode(h.numberOfOrders, 4);
  }

  /** Conversely, bytes that decode are exactly the encoding of what they decode to. */
  lemma EncodeDecodeHeader(b: seq<u8>)
    requires DecodeHeader(b).Ok?
    ensures EncodeHeader(DecodeHeader(b).value) == b
  {
    Pow256Widths();
    var h := DecodeHeader(b).value;
    LeEncodeDecode(b[105..109]);
    TagRoundTrip(h.tag);
    // Rebuild the encoding field by field, each step one more prefix of b.
    var e := [TagToByte(h.tag)] + h.market;
    PrefixSplit(b, 1, 33);
    e := e + h.owner;
    PrefixSplit(b, 33, 65);
    e := e + LeEncode(h.baseTokenFree, 8);
    PrefixSplit(b, 65, 73);
    e := e + LeEncode(h.baseTokenLocked, 8);
    PrefixSplit(b, 73, 81);
    e := e + LeEncode(h.quoteTokenFree, 8);
    PrefixSplit(b, 81, 89);
    e := e + LeEncode(h.quoteTokenLocked, 8);
    PrefixSplit(b, 89, 97);
    e := e + LeEncode(h.accumulatedRebates, 8);
    PrefixSplit(b, 97, 105);
    e := e + LeEncode(h.numberOfOrders, 4);
    PrefixSplit(b, 105, 109);
    assert e == b[..109];
  }

  /** A prefix of b splits at any shorter length. */
  lemma PrefixSplit(b: seq<u8>, k: nat, m: nat)
    requires 0 < k <= m <= |b|
    ensures b[..m] == b[..k] + b[k..m]
  {
  }

  /** A header is initialised when its tag says UserAccount. */
  function IsInitialized(h: UserAccountHeader): (b: bool)
    ensures b <==> TagToByte(h.tag) == 2
  {
    h.tag == AccountTag.UserAccount
  }

  /**
   * Unpacking checked for length, decoding and initialisation, as the host's
   * packing interface does before handing out a header.
   */
  function Unpack(b: seq<u8>): (r: Result<UserAccountHeader, ProgramError>)
    ensures r.Ok? ==> IsInitialized(r.value) && EncodeHeader(r.value) == b
  {
    match DecodeHeader(b)
    case Err(e) => Err(e)
    case Ok(h) =>
      EncodeDecodeHeader(b);
      if IsInitialized(h) then Ok(h) else Err(UninitializedAccount)
  }

  /**
   * Which buffers unpack: exactly the header-length ones whose tag byte is that
   * of UserAccount. A tag byte naming no variant is malformed data; the other two
   * variants are uninitialised.
   */
  lemma UnpackOutcome(b: seq<u8>)
    ensures Unpack(b).Ok? <==> |b| == HeaderLen && b[0] == TagToByte(AccountTag.UserAccount)
    ensures |b| == HeaderLen && b[0] < 2 ==> Unpack(b) == Err(UninitializedAccount)
    ensures |b| != HeaderLen || b[0] >= 3 ==> Unpack(b) == Err(InvalidAccountData)
  {
  }

  /** A packed initialised header unpacks to itself; any other tag is refused. */
  lemma UnpackPacked(h: UserAccountHeader)
    ensures Unpack(EncodeHeader(h)) == if IsInitialized(h) then Ok(h) else Err(UninitializedAccount)
  {
    DecodeEncodeHeader(h);
  }
}
