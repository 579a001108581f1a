/** Short channel ids as section "Definition of short_channel_id" of BOLT #7 packs them:
    three bytes of block height, three of transaction index, two of output index. */
module ShortChannelIds {

  /** The unpacked form keeps the two three-byte parts in 32-bit fields, so it has
      values that no packed id stands for. */
  datatype ShortChannelId = ShortChannelId(blockHeight: bv32, txIndex: bv32, txPosition: bv16)

  function FromUint64(raw: bv64): ShortChannelId {
    ShortChannelId((raw >> 40) as bv32, ((raw >> 16) & 0xFF_FFFF) as bv32, (raw & 0xFFFF) as bv16)
  }

  function ToUint64(id: ShortChannelId): bv64 {
    ((id.blockHeight as bv64) << 40) | ((id.txIndex as bv64) << 16) | (id.txPosition as bv64)
  }

  /** Unpacking and repacking is the identity on every 64-bit value. */
  lemma PackedRoundTrip(raw: bv64)
    ensures ToUint64(FromUint64(raw)) == raw
  {
    assert ((raw >> 40) << 40) | (((raw >> 16) & 0xFF_FFFF) << 16) | (raw & 0xFFFF) == raw;
  }

  /** The other way round it is the identity exactly on ids whose parts fit in three bytes. */
  lemma UnpackedRoundTrip(id: ShortChannelId)
    ensures FromUint64(ToUint64(id)) == id <==> id.blockHeight < 0x100_0000 && id.txIndex < 0x100_0000
  {
  }

  /** The three parts are where the standard has them: the height in the top three bytes, the index in the
      next three, the output in the last two. */
  lemma PackedLayout(raw: bv64)
    ensures var id := FromUint64(raw);
            && id.blockHeight as bv64 == raw / 0x100_0000_0000
            && id.txIndex as bv64 == (raw / 0x1_0000) % 0x100_0000
            && id.txPosition as bv64 == raw % 0x1_0000
  {
    assert raw / 0x100_0000_0000 == raw >> 40;
    assert raw / 0x1_0000 == raw >> 16;
    assert (raw >> 16) % 0x100_0000 == (raw >> 16) & 0xFF_FFFF;
    assert raw % 0x1_0000 == raw & 0xFFFF;
  }
}
