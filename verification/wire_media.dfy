// Media on the wire: local buffers become content-addressed references and back.

module WireMedia {
  import opened SyncTypes
  import opened CardData

  type Hash = Buffer -> string

  predicate IsHexDigit(c: char) { '0' <= c <= '9' || 'a' <= c <= 'f' }

  predicate IsSha256Hex(s: string) {
    |s| == 64 && forall i :: 0 <= i < |s| ==> IsHexDigit(s[i])
  }

  /** A well-formed wire reference: a hash in hexadecimal and a positive length. */
  predicate IsWireRef(c: Content) {
    c.Ref? && IsSha256Hex(c.hash) && c.byteLength > 0
  }

  /** Digests are 64 hexadecimal digits. */
  ghost predicate IsDigest(hash: Hash) {
    forall b :: IsSha256Hex(hash(b))
  }

  // ----- walking a card -----

  function MapBlocks(blocks: seq<Block>, f: Content -> Content): (r: seq<Block>)
    ensures |r| == |blocks|
  {
    seq(|blocks|, i requires 0 <= i < |blocks| =>
      if blocks[i].MediaBlock? then MediaBlock(blocks[i].kind, f(blocks[i].content)) else blocks[i])
  }

  function MapSide(side: Side, f: Content -> Content): Side {
    match side
    case Blocks(blocks) => Blocks(MapBlocks(blocks, f))
    case Single(content) => Single(f(content))
    case Plain(_) => side
  }

  function MapCardMedia(data: Faces, f: Content -> Content): Faces {
    Faces(MapSide(data.front, f), MapSide(data.back, f))
  }

  /** One of the first `n` blocks has the content. */
  predicate InFirst(blocks: seq<Block>, n: nat, c: Content) {
    exists i :: 0 <= i < n && i < |blocks| && blocks[i].MediaBlock? && blocks[i].content == c
  }

  predicate InSide(side: Side, c: Content) {
    match side
    case Blocks(blocks) => InFirst(blocks, |blocks|, c)
    case Single(content) => content == c
    case Plain(_) => false
  }

  predicate InCard(data: Faces, c: Content) { InSide(data.front, c) || InSide(data.back, c) }

  // ----- the conversions -----

  function ToWire(hash: Hash, c: Content): Content {
    if c.Remote? || IsWireRef(c) then c
    else if !c.Held? then c
    else Ref(hash(c.buffer), c.mime, |c.buffer|)
  }

  /** With the bytes at hand; a missing hash is an error, see `Missing`. */
  function FromWire(bytes: map<string, Buffer>, c: Content): Content {
    if c.Remote? || c.Held? || !IsWireRef(c) || c.hash !in bytes then c
    else Held(bytes[c.hash], c.mime)
  }

  predicate Missing(bytes: map<string, Buffer>, c: Content) {
    IsWireRef(c) && c.hash !in bytes
  }

  datatype Hydrated = Ok(data: Faces) | MissingBytes

  /** The incoming conversion of a whole card: fails if any reference has no bytes. */
  ghost function FromWireCardData(data: Faces, bytes: map<string, Buffer>): Hydrated {
    if exists c :: InCard(data, c) && Missing(bytes, c) then MissingBytes
    else Ok(MapCardMedia(data, c => FromWire(bytes, c)))
  }

  function ToWireCardData(data: Faces, hash: Hash): Faces {
    MapCardMedia(data, c => ToWire(hash, c))
  }

  /** The reference that stands for a buffer announces its hash, type and length. */
  lemma RefAnnounces(hash: Hash, c: Content)
    ensures c.Held? ==> ToWire(hash, c) == Ref(hash(c.buffer), c.mime, |c.buffer|)
    ensures !c.Held? ==> ToWire(hash, c) == c
  {
  }

  // ----- walking lemmas -----

  lemma SideMembers(side: Side, f: Content -> Content, c: Content)
    ensures InSide(MapSide(side, f), c) <==> exists d :: InSide(side, d) && f(d) == c
  {
    if side.Blocks? {
      var blocks := side.blocks;
      if InSide(MapSide(side, f), c) {
        var i :| 0 <= i < |blocks| && MapBlocks(blocks, f)[i].MediaBlock? && MapBlocks(blocks, f)[i].content == c;
        assert InSide(side, blocks[i].content) && f(blocks[i].content) == c;
      }
      if exists d :: InSide(side, d) && f(d) == c {
        var d :| InSide(side, d) && f(d) == c;
        var i :| 0 <= i < |blocks| && blocks[i].MediaBlock? && blocks[i].content == d;
        assert MapBlocks(blocks, f)[i].content == c;
      }
    } else if side.Single? {
      assert InSide(side, side.content);
    }
  }

  lemma CardMembers(data: Faces, f: Content -> Content, c: Content)
    ensures InCard(MapCardMedia(data, f), c) <==> exists d :: InCard(data, d) && f(d) == c
  {
    SideMembers(data.front, f, c);
    SideMembers(data.back, f, c);
  }

  lemma SideComposes(side: Side, f: Content -> Content, g: Content -> Content)
    ensures MapSide(MapSide(side, f), g) == side <==> forall c :: InSide(side, c) ==> g(f(c)) == c
  {
    if side.Blocks? {
      var blocks := side.blocks;
      var out := MapBlocks(MapBlocks(blocks, f), g);
      if MapSide(MapSide(side, f), g) == side {
        forall c | InSide(side, c) ensures g(f(c)) == c {
          var i :| 0 <= i < |blocks| && blocks[i].MediaBlock? && blocks[i].content == c;
          assert out[i] == blocks[i];
        }
      }
      if forall c :: InSide(side, c) ==> g(f(c)) == c {
        forall i | 0 <= i < |blocks| ensures out[i] == blocks[i] {
          if blocks[i].MediaBlock? { assert InSide(side, blocks[i].content); }
        }
      }
    } else if side.Single? {
      assert InSide(side, side.content);
    }
  }

  // ----- outgoing, as it runs -----

  /** The hashes computed so far, and the buffers gathered under their hash. */
  datatype Gathering = Gathering(cache: map<Buffer, string>, media: map<string, Content>)

  ghost predicate Sound(hash: Hash, g: Gathering) {
    && (forall b :: b in g.cache ==> g.cache[b] == hash(b) && hash(b) in g.media)
    && (forall h :: h in g.media ==> g.media[h].Held? && hash(g.media[h].buffer) == h)
  }

  /** A content is converted; a buffer seen before is not hashed again. */
  method PrepareContent(c: Content, hash: Hash, g: Gathering) returns (wire: Content, g1: Gathering)
    requires Sound(hash, g)
    ensures Sound(hash, g1) && wire == ToWire(hash, c) && Adds(c, hash, g, g1)
  {
    if c.Remote? || IsWireRef(c) || !c.Held? {
      return c, g;
    }
    if c.buffer in g.cache {
      return Ref(g.cache[c.buffer], c.mime, |c.buffer|), g;
    }
    var h := hash(c.buffer);
    return Ref(h, c.mime, |c.buffer|), Gathering(g.cache[c.buffer := h], g.media[h := c]);
  }

  /** Gathered are exactly the hashes of the first blocks' buffers besides those before, each with such a buffer. */
  ghost predicate GatheredFrom(blocks: seq<Block>, n: nat, hash: Hash, g: Gathering, g1: Gathering) {
    && Sound(hash, g1)
    && (forall h :: h in g1.media <==> h in g.media || exists c: Content :: c.Held? && InFirst(blocks, n, c) && h == hash(c.buffer))
    && (forall h :: h in g1.media ==> InFirst(blocks, n, g1.media[h]) || (h in g.media && g1.media[h] == g.media[h]))
  }

  /** What one content adds. */
  ghost predicate Adds(c: Content, hash: Hash, g: Gathering, g1: Gathering) {
    && (forall h :: h in g1.media <==> h in g.media || (c.Held? && h == hash(c.buffer)))
    && (forall h :: h in g1.media ==> g1.media[h] == c || (h in g.media && g1.media[h] == g.media[h]))
  }

  lemma GathersOneMore(blocks: seq<Block>, i: nat, hash: Hash, g: Gathering, g1: Gathering, g2: Gathering)
    requires i < |blocks| && GatheredFrom(blocks, i, hash, g, g1) && Sound(hash, g2)
    requires if blocks[i].MediaBlock? then Adds(blocks[i].content, hash, g1, g2) else g2 == g1
    ensures GatheredFrom(blocks, i + 1, hash, g, g2)
  {
    forall c ensures InFirst(blocks, i + 1, c) <==> InFirst(blocks, i, c) || (blocks[i].MediaBlock? && blocks[i].content == c) {
    }
  }

  method PrepareBlocks(blocks: seq<Block>, hash: Hash, g: Gathering) returns (wire: seq<Block>, g1: Gathering)
    requires Sound(hash, g)
    ensures wire == MapBlocks(blocks, c => ToWire(hash, c)) && GatheredFrom(blocks, |blocks|, hash, g, g1)
  {
    wire, g1 := [], g;
    ghost var mapped := MapBlocks(blocks, c => ToWire(hash, c));
    for i := 0 to |blocks|
      invariant |wire| == i && wire == mapped[..i] && GatheredFrom(blocks, i, hash, g, g1)
    {
      var block := blocks[i];
      ghost var before := g1;
      if block.MediaBlock? {
        var content;
        content, g1 := PrepareContent(block.content, hash, g1);
        wire := wire + [MediaBlock(block.kind, content)];
      } else {
        wire := wire + [block];
      }
      GathersOneMore(blocks, i, hash, g, before, g1);
    }
  }

  method PrepareSide(side: Side, hash: Hash, g: Gathering) returns (wire: Side, g1: Gathering)
    requires Sound(hash, g)
    ensures Sound(hash, g1) && wire == MapSide(side, c => ToWire(hash, c))
    ensures forall h :: h in g1.media <==> h in g.media || exists c: Content :: c.Held? && InSide(side, c) && h == hash(c.buffer)
    ensures forall h :: h in g1.media ==> InSide(side, g1.media[h]) || (h in g.media && g1.media[h] == g.media[h])
  {
    match side
    case Blocks(blocks) =>
      var out;
      out, g1 := PrepareBlocks(blocks, hash, g);
      wire := Blocks(out);
    case Single(content) =>
      var out;
      out, g1 := PrepareContent(content, hash, g);
      wire := Single(out);
    case Plain(_) =>
      wire, g1 := side, g;
  }

  /** The outgoing conversion: references in place of buffers, and every buffer under its hash. */
  method PrepareWireCardData(data: Faces, hash: Hash) returns (wire: Faces, media: map<string, Content>)
    ensures wire == ToWireCardData(data, hash) && IsMediaOf(data, hash, media)
  {
    var front, g := PrepareSide(data.front, hash, Gathering(map[], map[]));
    var back;
    back, g := PrepareSide(data.back, hash, g);
    return Faces(front, back), g.media;
  }

  /** The buffers of a card, each under its hash. */
  ghost predicate IsMediaOf(data: Faces, hash: Hash, media: map<string, Content>) {
    && (forall h :: h in media <==> exists c: Content :: c.Held? && InCard(data, c) && h == hash(c.buffer))
    && (forall h :: h in media ==> media[h].Held? && InCard(data, media[h]) && hash(media[h].buffer) == h)
  }

  /** The distinct references of a card, by hash. */
  method CollectWireMediaRefs(data: Faces) returns (byHash: map<string, Content>)
    ensures forall h :: h in byHash <==> RefIn(data, h)
    ensures forall h :: h in byHash ==> IsWireRef(byHash[h]) && InCard(data, byHash[h]) && byHash[h].hash == h
  {
    byHash := CollectSide(data.front, map[]);
    byHash := CollectSide(data.back, byHash);
  }

  ghost predicate RefIn(data: Faces, h: string) {
    exists c :: InCard(data, c) && IsWireRef(c) && c.hash == h
  }

  /** Hydrating fails exactly if the card refers to a hash whose bytes are not at hand. */
  lemma HydratesIff(data: Faces, bytes: map<string, Buffer>)
    ensures FromWireCardData(data, bytes).MissingBytes? <==> exists h :: RefIn(data, h) && h !in bytes
  {
    if c :| InCard(data, c) && Missing(bytes, c) {
      assert RefIn(data, c.hash);
    }
  }

  method CollectSide(side: Side, found: map<string, Content>) returns (more: map<string, Content>)
    requires forall h :: h in found ==> IsWireRef(found[h]) && found[h].hash == h
    ensures forall h :: h in more <==> h in found || exists c :: InSide(side, c) && IsWireRef(c) && c.hash == h
    ensures forall h :: h in more ==> IsWireRef(more[h]) && more[h].hash == h
                                      && (InSide(side, more[h]) || (h in found && more[h] == found[h]))
  {
    more := found;
    if side.Single? && IsWireRef(side.content) {
      more := more[side.content.hash := side.content];
    }
    if side.Blocks? {
      var blocks := side.blocks;
      for i := 0 to |blocks|
        invariant forall h :: h in more <==> h in found || exists c :: InFirst(blocks, i, c) && IsWireRef(c) && c.hash == h
        invariant forall h :: h in more ==> IsWireRef(more[h]) && more[h].hash == h
                                            && (InFirst(blocks, i, more[h]) || (h in found && more[h] == found[h]))
      {
        var block := blocks[i];
        forall c ensures InFirst(blocks, i + 1, c) <==> InFirst(blocks, i, c) || (block.MediaBlock? && block.content == c) {
        }
        if block.MediaBlock? && IsWireRef(block.content) {
          more := more[block.content.hash := block.content];
        }
      }
    }
  }

  // ----- what the conversions promise -----

  function BytesOf(media: map<string, Content>): map<string, Buffer>
    requires forall h :: h in media ==> media[h].Held?
  {
    map h | h in media :: media[h].buffer
  }

  /** No two different buffers of the card share a hash. */
  ghost predicate CollisionFree(data: Faces, hash: Hash) {
    forall a, b :: InCard(data, a) && InCard(data, b) && a.Held? && b.Held? && hash(a.buffer) == hash(b.buffer) ==> a.buffer == b.buffer
  }

  /** One content there and back. */
  lemma ContentRoundTrip(data: Faces, hash: Hash, media: map<string, Content>, c: Content)
    requires IsDigest(hash) && CollisionFree(data, hash) && IsMediaOf(data, hash, media) && InCard(data, c)
    ensures FromWire(BytesOf(media), ToWire(hash, c)) == c && !Missing(BytesOf(media), ToWire(hash, c))
       <==> !IsWireRef(c) && (c.Held? ==> |c.buffer| > 0)
  {
    if c.Held? && |c.buffer| > 0 {
      var h := hash(c.buffer);
      assert h in media && media[h].buffer == c.buffer;
    }
  }

  /** Sending a card and hydrating it with its own buffers gives the card back exactly when no buffer is
      empty and nothing in it was a reference to begin with. */
  lemma WireRoundTrip(data: Faces, hash: Hash, media: map<string, Content>)
    requires IsDigest(hash) && CollisionFree(data, hash) && IsMediaOf(data, hash, media)
    ensures FromWireCardData(ToWireCardData(data, hash), BytesOf(media)) == Ok(data)
       <==> forall c :: InCard(data, c) ==> !IsWireRef(c) && (c.Held? ==> |c.buffer| > 0)
  {
    var f, g := (c: Content) => ToWire(hash, c), (c: Content) => FromWire(BytesOf(media), c);
    var wire := ToWireCardData(data, hash);
    forall c | InCard(data, c)
      ensures g(f(c)) == c && !Missing(BytesOf(media), f(c)) <==> !IsWireRef(c) && (c.Held? ==> |c.buffer| > 0)
    {
      ContentRoundTrip(data, hash, media, c);
    }
    forall c ensures InCard(wire, c) <==> exists d :: InCard(data, d) && f(d) == c {
      CardMembers(data, f, c);
    }
    SideComposes(data.front, f, g);
    SideComposes(data.back, f, g);
    forall d | InCard(data, d) ensures InCard(wire, f(d)) {
    }
  }

  /** Converting twice is converting once. */
  lemma ToWireTwice(data: Faces, hash: Hash)
    requires IsDigest(hash)
    ensures ToWireCardData(ToWireCardData(data, hash), hash) == ToWireCardData(data, hash)
  {
    SideTwice(data.front, c => ToWire(hash, c));
    SideTwice(data.back, c => ToWire(hash, c));
  }

  lemma SideTwice(side: Side, f: Content -> Content)
    requires forall c :: f(f(c)) == f(c)
    ensures MapSide(MapSide(side, f), f) == MapSide(side, f)
  {
    if side.Blocks? {
      assert MapBlocks(MapBlocks(side.blocks, f), f) == MapBlocks(side.blocks, f);
    }
  }

  lemma WireMember(data: Faces, hash: Hash, c: Content)
    requires InCard(data, c)
    ensures InCard(ToWireCardData(data, hash), ToWire(hash, c))
    ensures IsDigest(hash) && (IsWireRef(c) || (c.Held? && |c.buffer| > 0)) ==> IsWireRef(ToWire(hash, c))
  {
    CardMembers(data, d => ToWire(hash, d), ToWire(hash, c));
  }

  lemma WireOrigin(data: Faces, hash: Hash, c: Content) returns (d: Content)
    requires InCard(ToWireCardData(data, hash), c)
    ensures InCard(data, d) && ToWire(hash, d) == c
  {
    CardMembers(data, e => ToWire(hash, e), c);
    d :| InCard(data, d) && ToWire(hash, d) == c;
  }

  /** The hashes a receiver collects are those of the non-empty buffers and of the references that were
      already there, and no others. */
  lemma CollectedAreWritten(data: Faces, hash: Hash, h: string)
    requires IsDigest(hash)
    ensures RefIn(ToWireCardData(data, hash), h)
       <==> (exists c :: InCard(data, c) && c.Held? && |c.buffer| > 0 && hash(c.buffer) == h) || RefIn(data, h)
  {
    if RefIn(ToWireCardData(data, hash), h) {
      var c :| InCard(ToWireCardData(data, hash), c) && IsWireRef(c) && c.hash == h;
      var d := WireOrigin(data, hash, c);
    }
    if c :| InCard(data, c) && c.Held? && |c.buffer| > 0 && hash(c.buffer) == h {
      WireMember(data, hash, c);
    }
    if c :| InCard(data, c) && IsWireRef(c) && c.hash == h {
      WireMember(data, hash, c);
    }
  }
}
