/** Named collision layers for physics filtering (CollisionLayers.hpp /
    CollisionLayers.cpp): a layer name maps to one of Box2D's 16 category
    bits, and an unordered set of name pairs records which layers collide.
    A pair is stored as one string, the two names in `std::string` order
    joined by a comma. */
module CollisionLayers {
  import opened StringOrder

  /** A bit position of a `uint16_t`. */
  type BitIndex = j: bv16 | j < 16

  /** A checked layer index as a bit position. */
  function ToBit(n: int): (r: BitIndex)
    requires 0 <= n <= 15
    ensures r as int == n
  {
    n as bv16
  }

  lemma ToBitOfIndex(i: BitIndex)
    ensures ToBit(i as int) == i
  {
  }

  /** Bit `j` of a 16-bit mask. */
  predicate Bit(m: bv16, j: BitIndex)
  {
    (m >> j) & 1 == 1
  }

  /** `1 << j` as a `uint16_t`. */
  function BitMask(j: BitIndex): (m: bv16)
    ensures forall i: BitIndex :: Bit(m, i) <==> i == j
  {
    1 << j
  }

  /** The bits set in `m` are exactly the members of `s`. */
  ghost predicate MaskIs(m: bv16, s: set<BitIndex>)
  {
    forall i: BitIndex :: Bit(m, i) <==> i in s
  }

  lemma NoBitsInZero()
    ensures MaskIs(0, {})
  {
  }

  /** `mask |= 1 << j` sets bit `j` and keeps the others. */
  lemma OrBit(m: bv16, s: set<BitIndex>, j: BitIndex)
    requires MaskIs(m, s)
    ensures MaskIs(m | BitMask(j), s + {j})
  {
    forall i: BitIndex
      ensures Bit(m | BitMask(j), i) <==> i in s + {j}
    {
      assert Bit(m | BitMask(j), i) <==> Bit(m, i) || Bit(BitMask(j), i);
    }
  }

  /** `CollisionLayers::MakePairKey`: the smaller name first. */
  function MakePairKey(a: string, b: string): (k: string)
    ensures |k| == |a| + |b| + 1
  {
    if Less(a, b) then a + "," + b else b + "," + a
  }

  /** A pair has one key whichever way round it is named. */
  lemma PairKeySymmetric(a: string, b: string)
    ensures MakePairKey(a, b) == MakePairKey(b, a)
  {
    LessTotal(a, b);
    if Less(a, b) {
      LessAsymmetric(a, b);
    } else if Less(b, a) {
      LessAsymmetric(b, a);
    }
  }

  /** The comma is not escaped: two different pairs of names that contain
      commas can share a key. */
  lemma PairKeysCanCoincide()
    ensures MakePairKey("a,b", "c") == MakePairKey("a", "b,c")
  {
    assert Less("a,b", "c");
    assert Less("a", "b,c");
  }

  /** `DefineLayer` applied to a name table: an index outside 0..15 is
      rejected (after a warning), otherwise the name gets that index. */
  function DefineLayerIn(bits: map<string, int>, name: string, index: int): (r: map<string, int>)
    ensures index < 0 || index > 15 ==> r == bits
    ensures 0 <= index <= 15 ==> name in r && r[name] == index
    ensures forall n :: n != name ==> (n in r <==> n in bits) && (n in bits ==> r[n] == bits[n])
  {
    if index < 0 || index > 15 then bits else bits[name := index]
  }

  /** The layers `Init` defines. */
  function DefaultLayerBits(): map<string, int>
  {
    map["default" := 0, "player" := 1, "enemy" := 2, "player_bullet" := 3,
        "enemy_bullet" := 4, "wall" := 5, "item" := 6, "trigger" := 7]
  }

  /** The colliding pairs `Init` sets, added one at a time in its order. */
  function DefaultMatrix(): set<string>
  {
    {} + {MakePairKey("default", "default")} + {MakePairKey("default", "wall")}
       + {MakePairKey("player", "wall")} + {MakePairKey("enemy", "wall")}
       + {MakePairKey("player", "enemy")} + {MakePairKey("player", "enemy_bullet")}
       + {MakePairKey("enemy", "player_bullet")} + {MakePairKey("player", "item")}
       + {MakePairKey("player_bullet", "wall")} + {MakePairKey("enemy_bullet", "wall")}
  }

  /** Every index in a name table is a Box2D category bit. */
  ghost predicate BitIndices(bits: map<string, int>)
  {
    forall n :: n in bits ==> 0 <= bits[n] <= 15
  }

  /** The indices of the layers among `names` whose pair with `layerName`
      is in `matrix`. */
  ghost function CollidingBits(bits: map<string, int>, matrix: set<string>, layerName: string,
                               names: set<string>): set<BitIndex>
    requires BitIndices(bits) && names <= bits.Keys
  {
    set o | o in names && MakePairKey(layerName, o) in matrix :: ToBit(bits[o])
  }

  /** Looking at one more layer adds its index when it collides. */
  lemma CollidingBitsStep(bits: map<string, int>, matrix: set<string>, layerName: string,
                          done: set<string>, other: string)
    requires BitIndices(bits) && done <= bits.Keys && other in bits
    ensures MakePairKey(layerName, other) in matrix ==>
      CollidingBits(bits, matrix, layerName, done + {other})
      == CollidingBits(bits, matrix, layerName, done) + {ToBit(bits[other])}
    ensures MakePairKey(layerName, other) !in matrix ==>
      CollidingBits(bits, matrix, layerName, done + {other}) == CollidingBits(bits, matrix, layerName, done)
  {
  }

  /** An index is among the colliding bits of all layers exactly when some
      layer with that index collides. */
  lemma CollidingBitsMeaning(bits: map<string, int>, matrix: set<string>, layerName: string, i: BitIndex)
    requires BitIndices(bits)
    ensures i in CollidingBits(bits, matrix, layerName, bits.Keys) <==>
      exists o :: o in bits && bits[o] == i as int && MakePairKey(layerName, o) in matrix
  {
    if exists o :: o in bits && bits[o] == i as int && MakePairKey(layerName, o) in matrix {
      var o :| o in bits && bits[o] == i as int && MakePairKey(layerName, o) in matrix;
      ToBitOfIndex(i);
    }
  }

  /** The layer table. */
  class Layers {
    /** Layer name to bit index. */
    var layerBits: map<string, int>
    /** The keys of the colliding pairs. */
    var collisionMatrix: set<string>

    /** Every defined index is a valid Box2D category bit: `DefineLayer`
        rejects any other. */
    ghost predicate Valid()
      reads this
    {
      BitIndices(layerBits)
    }

    /** The static initialisers: no layers, no pairs. */
    constructor ()
      ensures Valid() && layerBits == map[] && collisionMatrix == {}
    {
      layerBits := map[];
      collisionMatrix := {};
    }

    /** `CollisionLayers::DefineLayer`. */
    method DefineLayer(name: string, bitIndex: int)
      requires Valid()
      modifies this
      ensures Valid()
      ensures layerBits == DefineLayerIn(old(layerBits), name, bitIndex)
      ensures collisionMatrix == old(collisionMatrix)
    {
      if bitIndex < 0 || bitIndex > 15 {
        return;
      }
      layerBits := layerBits[name := bitIndex];
    }

    /** `CollisionLayers::SetLayerCollision`: adds or removes the pair's key. */
    method SetLayerCollision(layer1: string, layer2: string, collide: bool)
      modifies this
      ensures layerBits == old(layerBits)
      ensures collisionMatrix == if collide then old(collisionMatrix) + {MakePairKey(layer1, layer2)}
                                 else old(collisionMatrix) - {MakePairKey(layer1, layer2)}
    {
      var key := MakePairKey(layer1, layer2);
      if collide {
        collisionMatrix := collisionMatrix + {key};
      } else {
        collisionMatrix := collisionMatrix - {key};
      }
    }

    /** `CollisionLayers::DoLayersCollide`. */
    function DoLayersCollide(layer1: string, layer2: string): bool
      reads this
    {
      MakePairKey(layer1, layer2) in collisionMatrix
    }

    /** Whether two layers collide does not depend on the order they are
        named in; after `SetLayerCollision(a, b, c)` both orders answer `c`. */
    lemma CollideSymmetric(a: string, b: string)
      ensures DoLayersCollide(a, b) == DoLayersCollide(b, a)
    {
      PairKeySymmetric(a, b);
    }

    /** `CollisionLayers::GetCategoryBits`: the layer's own bit, and bit 0
        for a layer never defined. */
    function GetCategoryBits(layerName: string): (r: bv16)
      requires Valid()
      reads this
      ensures layerName !in layerBits ==> r == 1
      ensures layerName in layerBits ==>
        forall i: BitIndex :: Bit(r, i) <==> i as int == layerBits[layerName]
    {
      if layerName !in layerBits then 1 else BitMask(ToBit(layerBits[layerName]))
    }

    /** `CollisionLayers::GetMaskBits`: bit `i` is set exactly when some
        defined layer with index `i` collides with `layerName`.  The map is
        walked in an unspecified order. */
    method GetMaskBits(layerName: string) returns (mask: bv16)
      requires Valid()
      ensures MaskIs(mask, CollidingBits(layerBits, collisionMatrix, layerName, layerBits.Keys))
      ensures forall i: BitIndex ::
        Bit(mask, i) <==> exists o :: o in layerBits && layerBits[o] == i as int && DoLayersCollide(layerName, o)
    {
      mask := 0;
      NoBitsInZero();
      var todo := layerBits.Keys;
      ghost var done: set<string> := {};
      ghost var bits, matrix := layerBits, collisionMatrix;
      assert CollidingBits(bits, matrix, layerName, done) == {};
      while todo != {}
        invariant todo + done == bits.Keys && todo !! done
        invariant MaskIs(mask, CollidingBits(bits, matrix, layerName, done))
        decreases |todo|
      {
        var other :| other in todo;
        var bitIndex: BitIndex := ToBit(layerBits[other]);
        ghost var before := CollidingBits(bits, matrix, layerName, done);
        CollidingBitsStep(bits, matrix, layerName, done, other);
        if DoLayersCollide(layerName, other) {
          OrBit(mask, before, bitIndex);
          mask := mask | BitMask(bitIndex);
        }
        todo := todo - {other};
        done := done + {other};
      }
      forall i: BitIndex
        ensures Bit(mask, i) <==> exists o :: o in layerBits && layerBits[o] == i as int && DoLayersCollide(layerName, o)
      {
        CollidingBitsMeaning(bits, matrix, layerName, i);
      }
    }

    /** `CollisionLayers::Init`: the eight default layers and the default
        colliding pairs, replacing whatever was there. */
    method Init()
      modifies this
      ensures Valid()
      ensures layerBits == DefaultLayerBits() && collisionMatrix == DefaultMatrix()
    {
      layerBits := map[];
      collisionMatrix := {};
      DefineDefaultLayers();
      SetDefaultCollisions();
    }

    /** The `DefineLayer` calls of `Init` (CollisionLayers.cpp:16-23). */
    method DefineDefaultLayers()
      requires layerBits == map[]
      modifies this
      ensures Valid() && layerBits == DefaultLayerBits()
      ensures collisionMatrix == old(collisionMatrix)
    {
      DefineLayer("default", 0);
      DefineLayer("player", 1);
      DefineLayer("enemy", 2);
      DefineLayer("player_bullet", 3);
      DefineLayer("enemy_bullet", 4);
      DefineLayer("wall", 5);
      DefineLayer("item", 6);
      DefineLayer("trigger", 7);
    }

    /** The `SetLayerCollision` calls of `Init` (CollisionLayers.cpp:26-35). */
    method SetDefaultCollisions()
      requires collisionMatrix == {}
      modifies this
      ensures collisionMatrix == DefaultMatrix()
      ensures layerBits == old(layerBits)
    {
      SetLayerCollision("default", "default", true);
      SetLayerCollision("default", "wall", true);
      SetLayerCollision("player", "wall", true);
      SetLayerCollision("enemy", "wall", true);
      SetLayerCollision("player", "enemy", true);
      SetLayerCollision("player", "enemy_bullet", true);
      SetLayerCollision("enemy", "player_bullet", true);
      SetLayerCollision("player", "item", true);
      SetLayerCollision("player_bullet", "wall", true);
      SetLayerCollision("enemy_bullet", "wall", true);
    }
  }

  /** After `Init` the player collides with walls and enemies, in either
      order. */
  lemma DefaultCollisions()
    ensures MakePairKey("player", "wall") in DefaultMatrix()
    ensures MakePairKey("wall", "player") in DefaultMatrix()
    ensures MakePairKey("player", "enemy") in DefaultMatrix()
    ensures MakePairKey("enemy", "player") in DefaultMatrix()
  {
    PairKeySymmetric("player", "wall");
    PairKeySymmetric("player", "enemy");
  }

  /** After `Init` the player does not collide with its own bullets, in
      either order. */
  lemma DefaultNoFriendlyFire()
    ensures MakePairKey("player", "player_bullet") !in DefaultMatrix()
    ensures MakePairKey("player_bullet", "player") !in DefaultMatrix()
  {
    PairKeySymmetric("player", "player_bullet");
    DefaultKeysShort();
    assert |MakePairKey("player", "player_bullet")| == 20;
  }

  /** No default key is as long as the player / player bullet key. */
  lemma DefaultKeysShort()
    ensures forall x | x in DefaultMatrix() :: |x| < 20
  {
  }
}
