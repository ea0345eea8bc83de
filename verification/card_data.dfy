// Cards as the client holds them: sides made of blocks, and the media embedded in them.

module CardData {
  import opened SyncTypes

  type Byte = b: int | 0 <= b < 256

  type Buffer = seq<Byte>

  datatype MediaKind = Image | Audio

  /** The content of a media block: bytes held locally, a reference as sent on the wire, a remote
      address, or something else. */
  datatype Content =
    | Held(buffer: Buffer, mime: string)
    | Ref(hash: string, mime: string, byteLength: nat)
    | Remote(src: string)
    | Opaque(text: string)

  datatype Block = MediaBlock(kind: MediaKind, content: Content) | TextBlock(text: string)

  /** A side is a list of blocks, or, in the old schema, a single content or a plain text. */
  datatype Side = Blocks(blocks: seq<Block>) | Single(content: Content) | Plain(text: string)

  datatype Faces = Faces(front: Side, back: Side)

  datatype Card = Card(id: Id, topicId: Id, level: int, data: Faces, updatedAt: Time)

  // ----- embedded media -----

  datatype Media = Media(bytes: int, images: int, audio: int)

  const NO_MEDIA := Media(0, 0, 0)

  function AddMedia(a: Media, b: Media): Media { Media(a.bytes + b.bytes, a.images + b.images, a.audio + b.audio) }

  /** Counter by counter, `r` is `a` and `b` together. */
  predicate IsSum(r: Media, a: Media, b: Media) {
    r.bytes == a.bytes + b.bytes && r.images == a.images + b.images && r.audio == a.audio + b.audio
  }

  predicate AtLeastNone(m: Media) { m.bytes >= 0 && m.images >= 0 && m.audio >= 0 }

  function SubMedia(a: Media, b: Media): Media { Media(a.bytes - b.bytes, a.images - b.images, a.audio - b.audio) }

  function BlockMedia(block: Block): Media {
    if !block.MediaBlock? || !block.content.Held? then NO_MEDIA
    else Media(|block.content.buffer|, if block.kind.Image? then 1 else 0, if block.kind.Audio? then 1 else 0)
  }

  /** What the first `n` blocks embed. */
  function MediaUpTo(blocks: seq<Block>, n: nat): Media
    requires n <= |blocks|
  {
    if n == 0 then NO_MEDIA else AddMedia(MediaUpTo(blocks, n - 1), BlockMedia(blocks[n - 1]))
  }

  function BlocksOf(side: Side): seq<Block> {
    if side.Blocks? then side.blocks else []
  }

  function SideMedia(side: Side): Media {
    MediaUpTo(BlocksOf(side), |BlocksOf(side)|)
  }

  /** What the card embeds; single-content sides are not counted. */
  function CardMedia(card: Card): Media {
    AddMedia(SideMedia(card.data.front), SideMedia(card.data.back))
  }

  /** The blocks that hold local media of a kind. */
  function HeldOf(blocks: seq<Block>, n: nat, kind: MediaKind): set<nat>
    requires n <= |blocks|
  {
    set i: nat | i < n && blocks[i].MediaBlock? && blocks[i].content.Held? && blocks[i].kind == kind
  }

  /** What the first blocks hold, one buffer after the other. */
  function BytesUpTo(blocks: seq<Block>, n: nat): Buffer
    requires n <= |blocks|
  {
    if n == 0 then []
    else BytesUpTo(blocks, n - 1)
         + if blocks[n - 1].MediaBlock? && blocks[n - 1].content.Held? then blocks[n - 1].content.buffer else []
  }

  /** The counters count the blocks of either kind that hold local media, and their bytes. */
  lemma {:induction false} MediaCounts(blocks: seq<Block>, n: nat)
    requires n <= |blocks|
    ensures MediaUpTo(blocks, n) == Media(|BytesUpTo(blocks, n)|, |HeldOf(blocks, n, Image)|, |HeldOf(blocks, n, Audio)|)
  {
    if n > 0 {
      MediaCounts(blocks, n - 1);
      OneBlockMore(blocks, n - 1, Image);
      OneBlockMore(blocks, n - 1, Audio);
    }
  }

  lemma OneBlockMore(blocks: seq<Block>, n: nat, kind: MediaKind)
    requires n < |blocks|
    ensures var held := blocks[n].MediaBlock? && blocks[n].content.Held? && blocks[n].kind == kind;
      |HeldOf(blocks, n + 1, kind)| == |HeldOf(blocks, n, kind)| + if held then 1 else 0
  {
    var before, after := HeldOf(blocks, n, kind), HeldOf(blocks, n + 1, kind);
    assert n !in before;
    assert after - {n} == before;
    assert after == if n in after then before + {n} else before;
  }

  lemma {:induction false} BlocksNonNegative(blocks: seq<Block>, n: nat)
    requires n <= |blocks|
    ensures AtLeastNone(MediaUpTo(blocks, n))
  {
    if n > 0 {
      BlocksNonNegative(blocks, n - 1);
    }
  }

  lemma CardNonNegative(card: Card)
    ensures AtLeastNone(CardMedia(card))
  {
    BlocksNonNegative(BlocksOf(card.data.front), |BlocksOf(card.data.front)|);
    BlocksNonNegative(BlocksOf(card.data.back), |BlocksOf(card.data.back)|);
  }

  method SumEmbeddedCardMedia(card: Card) returns (r: Media)
    ensures r == CardMedia(card)
    ensures var front, back := BlocksOf(card.data.front), BlocksOf(card.data.back);
      && r.bytes == |BytesUpTo(front, |front|)| + |BytesUpTo(back, |back|)|
      && r.images == |HeldOf(front, |front|, Image)| + |HeldOf(back, |back|, Image)|
      && r.audio == |HeldOf(front, |front|, Audio)| + |HeldOf(back, |back|, Audio)|
  {
    var front := AddBlocks(NO_MEDIA, BlocksOf(card.data.front));
    r := AddBlocks(front, BlocksOf(card.data.back));
    MediaCounts(BlocksOf(card.data.front), |BlocksOf(card.data.front)|);
    MediaCounts(BlocksOf(card.data.back), |BlocksOf(card.data.back)|);
  }

  /** Continues the three counters over one side's blocks. */
  method AddBlocks(before: Media, blocks: seq<Block>) returns (r: Media)
    ensures IsSum(r, before, MediaUpTo(blocks, |blocks|))
  {
    r := before;
    for i := 0 to |blocks|
      invariant IsSum(r, before, MediaUpTo(blocks, i))
    {
      var block := blocks[i];
      if !block.MediaBlock? || !block.content.Held? { continue; }
      if block.kind.Image? {
        r := Media(r.bytes + |block.content.buffer|, r.images + 1, r.audio);
      } else {
        r := Media(r.bytes + |block.content.buffer|, r.images, r.audio + 1);
      }
    }
  }
}
