/** Turning seed bags into crops and the crops into a farm (src/setup.rs). */
module Setup {
  import opened Options
  import opened Seeds
  import opened Growth
  import opened Crops
  import opened Farms

  /** `load_crops_from_bags` unwraps every bag's `is_gmo`. */
  predicate GmoKnown(bags: seq<SeedBag>) {
    forall i :: 0 <= i < |bags| ==> bags[i].isGmo.Some?
  }

  /** The crop every seed of a bag becomes. */
  function BagCrop(b: SeedBag): (c: Crop)
    requires b.isGmo.Some?
    ensures IsFresh(c) && c.isHarvestable && c.splitSize == Some(1.0)
    ensures c.verboseName == b.seedType.verboseName && c.botanicaName == b.seedType.botanicaName
    ensures c.species == b.species && c.description == b.description && c.isGmo == b.isGmo.value
  {
    New(GetBotanicaName(b.seedType), GetVerboseName(b.seedType), b.species, b.description).(isGmo := b.isGmo.value)
  }

  function TotalQuantity(bags: seq<SeedBag>): nat {
    if bags == [] then 0 else bags[0].quantity + TotalQuantity(bags[1..])
  }

  /** `quantity` copies of a bag's crop. */
  function Copies(b: SeedBag, quantity: nat): seq<Crop>
    requires b.isGmo.Some?
  {
    seq(quantity, _ => BagCrop(b))
  }

  /** Reference definition of the loaded list: the bags' blocks of copies, one after another. */
  function Expand(bags: seq<SeedBag>): seq<Crop>
    requires GmoKnown(bags)
  {
    if bags == [] then [] else Expand(bags[..|bags| - 1]) + Copies(bags[|bags| - 1], bags[|bags| - 1].quantity)
  }

  /** `load_crops_from_bags`, given the bags instead of reading them from the catalogue file. */
  method LoadCropsFromBags(bags: seq<SeedBag>) returns (crops: seq<Crop>)
    requires GmoKnown(bags)
    ensures crops == Expand(bags)
  {
    crops := [];
    var i := 0;
    while i < |bags|
      invariant 0 <= i <= |bags|
      invariant crops == Expand(bags[..i])
    {
      var bag := bags[i];
      var crop := BagCrop(bag);
      var k := 0;
      while k < bag.quantity
        invariant 0 <= k <= bag.quantity
        invariant crops == Expand(bags[..i]) + Copies(bag, k)
      {
        crops := crops + [crop];
        k := k + 1;
      }
      assert bags[..i + 1][..i] == bags[..i];
      i := i + 1;
    }
    assert bags[..|bags|] == bags;
  }

  /** Expanding a concatenation expands each part in turn. */
  lemma {:induction false} ExpandAppend(a: seq<SeedBag>, b: seq<SeedBag>)
    requires GmoKnown(a) && GmoKnown(b)
    ensures GmoKnown(a + b)
    ensures Expand(a + b) == Expand(a) + Expand(b)
    decreases |b|
  {
    if b == [] {
      assert a + b == a;
    } else {
      var last := b[|b| - 1];
      var init := b[..|b| - 1];
      assert (a + b)[..|a + b| - 1] == a + init;
      ExpandAppend(a, init);
    }
  }

  /** Quantities add up when the bag list is split. */
  lemma {:induction false} TotalQuantityAppend(a: seq<SeedBag>, b: seq<SeedBag>)
    ensures TotalQuantity(a + b) == TotalQuantity(a) + TotalQuantity(b)
  {
    if a == [] {
      assert a + b == b;
    } else {
      assert (a + b)[1..] == a[1..] + b;
      TotalQuantityAppend(a[1..], b);
    }
  }

  /** The loaded list has one crop per seed: its length is the sum of the bags' quantities. */
  lemma {:induction false} ExpandLength(bags: seq<SeedBag>)
    requires GmoKnown(bags)
    ensures |Expand(bags)| == TotalQuantity(bags)
  {
    if bags != [] {
      var init := bags[..|bags| - 1];
      ExpandLength(init);
      TotalQuantityAppend(init, [bags[|bags| - 1]]);
      assert init + [bags[|bags| - 1]] == bags;
      assert TotalQuantity([bags[|bags| - 1]]) == bags[|bags| - 1].quantity;
    }
  }

  /**
   * The list is bag-ordered: bag `j` owns the block that starts after the
   * seeds of the bags before it, and every crop in that block is its crop.
   * A bag of quantity 0 owns an empty block.
   */
  lemma {:induction false} ExpandBlock(bags: seq<SeedBag>, j: nat)
    requires GmoKnown(bags) && j < |bags|
    ensures TotalQuantity(bags[..j]) + bags[j].quantity <= |Expand(bags)|
    ensures Expand(bags)[TotalQuantity(bags[..j])..TotalQuantity(bags[..j]) + bags[j].quantity]
            == Copies(bags[j], bags[j].quantity)
  {
    var before, here, after := bags[..j], [bags[j]], bags[j + 1..];
    assert bags == before + here + after;
    ExpandAppend(before, here);
    ExpandAppend(before + here, after);
    ExpandLength(before);
    assert Expand(here) == Copies(bags[j], bags[j].quantity) by {
      assert here[..0] == [];
    }
  }

  /**
   * Every loaded crop is a new crop of its bag: fresh at Seed with no days,
   * whole, harvestable, named after the bag's seed type, with the bag's
   * species, description and GMO flag.
   */
  lemma {:induction false} ExpandMembers(bags: seq<SeedBag>, c: Crop)
    requires GmoKnown(bags) && c in Expand(bags)
    ensures exists j :: 0 <= j < |bags| && c == BagCrop(bags[j])
    ensures IsFresh(c) && c.isHarvestable && c.splitSize == Some(1.0)
    ensures exists j :: (0 <= j < |bags| && c.verboseName == bags[j].seedType.verboseName
                         && c.botanicaName == bags[j].seedType.botanicaName && c.species == bags[j].species
                         && c.description == bags[j].description && c.isGmo == bags[j].isGmo.value)
  {
    var init := bags[..|bags| - 1];
    var last := bags[|bags| - 1];
    if c in Expand(init) {
      ExpandMembers(init, c);
      var j :| 0 <= j < |init| && c == BagCrop(init[j]);
      assert init[j] == bags[j];
    } else {
      assert c in Copies(last, last.quantity);
      assert c == BagCrop(bags[|bags| - 1]);
    }
  }

  /** Three peas and one tomato load as four crops: the three peas first. */
  lemma PeasThenTomato(pea: SeedBag, tomato: SeedBag)
    requires pea.quantity == 3 && tomato.quantity == 1
    requires pea.isGmo.Some? && tomato.isGmo.Some?
    ensures GmoKnown([pea, tomato])
    ensures var crops := Expand([pea, tomato]);
      && |crops| == 4
      && crops[0] == crops[1] == crops[2] == BagCrop(pea)
      && crops[3] == BagCrop(tomato)
  {
    assert [pea, tomato][..1] == [pea];
    assert [pea][..0] == [];
    assert Expand([pea]) == Copies(pea, 3);
    assert Expand([pea, tomato]) == Copies(pea, 3) + Copies(tomato, 1);
  }

  const SecurityCode: string := "Zsx12-00-RSA"

  /**
   * `setup_farm`, given the bags. The source wraps the farm in a `Result`
   * that is always `Ok`.
   */
  function SetupFarm(bags: seq<SeedBag>): (f: Farm)
    requires GmoKnown(bags)
    ensures f.crops == Expand(bags) && |f.crops| == TotalQuantity(bags)
    ensures f.isActive && f.isReadyForHarvest == Some(false)
    ensures f.isTrackable.None? && f.isPlantReady.None?
    ensures f.size == FarmSize(10, 10) && f.securityCode == SecurityCode
  {
    ExpandLength(bags);
    Farm(Expand(bags), FarmSize(10, 10), SecurityCode, true, None, None, Some(false))
  }
}
