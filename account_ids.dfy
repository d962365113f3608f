/** Account identifiers and the decoder for wallet addresses stored in the
    legacy bech32 layout (src/utils.rs). The Bech32m checksum decoding and the
    validity test of `AccountId::try_from` are library code and enter as
    functions supplied by the caller. */
module AccountIds {
  import opened Wrappers
  import opened Text

  type Byte = b: int | 0 <= b < 256

  /** Length in bytes of a serialized account id. */
  const SERIALIZED_SIZE: nat := 15

  /** `AddressType::AccountId as u8`, the address-type tag of an account-id
      address in the client library. */
  const ACCOUNT_ID_ADDRESS_TYPE: Byte := 0

  /** An account id, identified by its serialized bytes. */
  datatype AccountId = AccountId(bytes: seq<Byte>)

  /** The interface an account-id address is printed with. */
  datatype AddressInterface = Unspecified | BasicWallet

  /** What `Address::from_bech32` makes of a text: an account-id address, a
      bech32 address of another kind, or text that is not a bech32 address. */
  datatype AddressParse = AccountIdAddress(id: AccountId) | OtherAddress | NotBech32

  /** The library calls the decoder relies on:
      `payload(s)` is `CheckedHrpstring::new::<Bech32m>(s)` followed by its
      `byte_iter()`, or `None` when the text is not valid Bech32m;
      `accepts(b)` tells whether `AccountId::try_from(b)` succeeds on 15 bytes. */
  datatype LegacyCodec = LegacyCodec(payload: string -> Option<seq<Byte>>, accepts: seq<Byte> -> bool)

  const DECODE_FAILED: string := "Failed to decode bech32 string"
  const BAD_ID_BYTES: string := "Failed to create AccountId from bytes"

  function BadLength(len: nat): string {
    "Invalid address length: expected " + ToDecimal(SERIALIZED_SIZE + 1) + ", got " + ToDecimal(len)
  }

  function BadTypeByte(b: Byte): string {
    "Invalid address type byte: expected " + ToDecimal(ACCOUNT_ID_ADDRESS_TYPE) + ", got " + ToDecimal(b)
  }

  /** What `legacy_accountid_to_bech32` returns for `s`: the checks run in
      the order decode, length, type byte, id validity. */
  function LegacyAccountId(codec: LegacyCodec, s: string): (r: Result<AccountId>)
    ensures r.Ok? ==> |r.value.bytes| == SERIALIZED_SIZE
  {
    match codec.payload(s)
    case None => Err(DECODE_FAILED)
    case Some(p) =>
      if |p| != SERIALIZED_SIZE + 1 then Err(BadLength(|p|))
      else if p[0] != ACCOUNT_ID_ADDRESS_TYPE then Err(BadTypeByte(p[0]))
      else if !codec.accepts(p[1..]) then Err(BAD_ID_BYTES)
      else Ok(AccountId(p[1..]))
  }

  /** A legacy address denotes `id` exactly when its payload is the type tag
      followed by the 15 bytes of `id`, in order, and those bytes form a valid id. */
  lemma LegacyAccountIdOk(codec: LegacyCodec, s: string, id: AccountId)
    ensures LegacyAccountId(codec, s) == Ok(id)
        <==> codec.payload(s) == Some([ACCOUNT_ID_ADDRESS_TYPE] + id.bytes)
             && |id.bytes| == SERIALIZED_SIZE && codec.accepts(id.bytes)
  {
    if codec.payload(s) == Some([ACCOUNT_ID_ADDRESS_TYPE] + id.bytes) {
      assert ([ACCOUNT_ID_ADDRESS_TYPE] + id.bytes)[1..] == id.bytes;
    }
    if LegacyAccountId(codec, s) == Ok(id) {
      var p := codec.payload(s).value;
      assert p == [p[0]] + p[1..];
    }
  }

  /** Each way the decoder can fail, with its reason. */
  lemma LegacyAccountIdErrors(codec: LegacyCodec, s: string)
    ensures codec.payload(s).None? ==> LegacyAccountId(codec, s) == Err(DECODE_FAILED)
    ensures codec.payload(s).Some? && |codec.payload(s).value| != SERIALIZED_SIZE + 1
            ==> LegacyAccountId(codec, s) == Err(BadLength(|codec.payload(s).value|))
    ensures codec.payload(s).Some? && |codec.payload(s).value| == SERIALIZED_SIZE + 1
            && codec.payload(s).value[0] != ACCOUNT_ID_ADDRESS_TYPE
            ==> LegacyAccountId(codec, s) == Err(BadTypeByte(codec.payload(s).value[0]))
    ensures codec.payload(s).Some? && |codec.payload(s).value| == SERIALIZED_SIZE + 1
            && codec.payload(s).value[0] == ACCOUNT_ID_ADDRESS_TYPE
            && !codec.accepts(codec.payload(s).value[1..])
            ==> LegacyAccountId(codec, s) == Err(BAD_ID_BYTES)
  {
  }

  /** `legacy_accountid_to_bech32`, with the id assembled in a 15-byte array
      by an indexed copy of the payload after its type byte. */
  method LegacyAccountIdToBech32(codec: LegacyCodec, s: string) returns (r: Result<AccountId>)
    ensures r == LegacyAccountId(codec, s)
  {
    var checked := codec.payload(s);
    if checked.None? {
      return Err(DECODE_FAILED);
    }
    var payload := checked.value;
    if |payload| != SERIALIZED_SIZE + 1 {
      return Err(BadLength(|payload|));
    }
    var addressByte := payload[0];
    if addressByte != ACCOUNT_ID_ADDRESS_TYPE {
      return Err(BadTypeByte(addressByte));
    }
    var idBytes := new Byte[SERIALIZED_SIZE](_ => 0);
    var i := 0;
    while i < |payload| - 1
      invariant 0 <= i <= SERIALIZED_SIZE
      invariant idBytes[..i] == payload[1..i + 1]
    {
      idBytes[i] := payload[i + 1];
      i := i + 1;
    }
    // every slot has been overwritten
    assert idBytes[..] == payload[1..];
    if !codec.accepts(idBytes[..]) {
      return Err(BAD_ID_BYTES);
    }
    r := Ok(AccountId(idBytes[..]));
  }
}
