/** Seed types and seed bags (src/seeds.rs). */
module Seeds {
  import opened Options
  import opened Text

  /** The five variants of the source's `SeedType` enum. */
  datatype Species = Sunflower | Pea | Carrot | Tomato | Broccoli

  /**
   * A parsed seed type. Every variant of the source's enum carries two strings:
   * the name it was parsed from and the botanical name.
   */
  datatype SeedType = SeedType(species: Species, verboseName: string, botanicaName: string)

  const Botanica: string := "Botanica"
  const InvalidSeedType: string := "Invalid seed type"

  /** The lower-case spelling that selects each species. */
  function Keyword(sp: Species): string {
    match sp
    case Sunflower => "sun flower"
    case Pea => "pea"
    case Carrot => "carrot"
    case Tomato => "tomato"
    case Broccoli => "broccoli"
  }

  /** `SeedType::from_str`: a case-insensitive match against the five keywords. */
  function FromStr(s: string): (r: Result<SeedType, string>)
    ensures r.Ok? ==> Lower(s) == Keyword(r.value.species)
    ensures r.Ok? ==> r.value.verboseName == s && r.value.botanicaName == Botanica
    ensures r.Err? ==> r.error == InvalidSeedType
    ensures r.Err? ==> forall sp :: Lower(s) != Keyword(sp)
  {
    var key := Lower(s);
    if key == "sun flower" then Ok(SeedType(Sunflower, s, Botanica))
    else if key == "pea" then Ok(SeedType(Pea, s, Botanica))
    else if key == "carrot" then Ok(SeedType(Carrot, s, Botanica))
    else if key == "tomato" then Ok(SeedType(Tomato, s, Botanica))
    else if key == "broccoli" then Ok(SeedType(Broccoli, s, Botanica))
    else Err(InvalidSeedType)
  }

  /** `get_botanica_name`: for a seed type `from_str` built, the fixed botanical name. */
  function GetBotanicaName(t: SeedType): (r: string)
    ensures WellFormed(t) ==> r == Botanica
  {
    t.botanicaName
  }

  /** `get_verbose_name`: for a seed type `from_str` built, a name that parses back to it. */
  function GetVerboseName(t: SeedType): (r: string)
    ensures WellFormed(t) ==> FromStr(r) == Ok(t)
  {
    t.verboseName
  }

  /** A seed type as `from_str` builds it: re-parsing its name gives it back. */
  predicate WellFormed(t: SeedType) {
    FromStr(t.verboseName) == Ok(t)
  }

  /** Every casing of a keyword selects that keyword's species. */
  lemma ParsesAnyCasing(s: string, sp: Species)
    requires Lower(s) == Keyword(sp)
    ensures FromStr(s) == Ok(SeedType(sp, s, Botanica))
  {
  }

  /** Two strings that agree up to case parse to the same species, or both fail. */
  lemma CaseInsensitive(s: string, t: string)
    requires Lower(s) == Lower(t)
    ensures FromStr(s).Ok? <==> FromStr(t).Ok?
    ensures FromStr(s).Ok? ==> FromStr(s).value.species == FromStr(t).value.species
  {
  }

  /** The parsed value keeps the caller's spelling and the fixed botanical name. */
  lemma NamesRoundTrip(s: string)
    requires FromStr(s).Ok?
    ensures GetVerboseName(FromStr(s).value) == s
    ensures GetBotanicaName(FromStr(s).value) == Botanica
    ensures WellFormed(FromStr(s).value)
  {
  }

  /** "Sun Flower" in any casing is accepted; without the space it is not. */
  lemma SunflowerNeedsTheSpace()
    ensures FromStr("Sun Flower") == Ok(SeedType(Sunflower, "Sun Flower", Botanica))
    ensures FromStr("sunflower") == Err(InvalidSeedType)
  {
    assert Lower("Sun Flower") == "sun flower";
    assert Lower("sunflower") == "sunflower";
  }

  datatype SeedBag = SeedBag(
    quantity: nat,
    seedType: SeedType,
    species: string,
    isGmo: Option<bool>,
    description: Option<string>)

  /**
   * `SeedBag::new`. The source wraps the bag in an `Option` that is always
   * `Some`, and panics on an unknown seed type; `Err` stands for that panic.
   */
  function NewSeedBag(quantity: nat, seedType: string, species: string): (r: Result<SeedBag, string>)
    ensures r.Ok? <==> FromStr(seedType).Ok?
    ensures r.Err? ==> r.error == InvalidSeedType
    ensures r.Ok? ==> r.value.quantity == quantity && r.value.species == species
    ensures r.Ok? ==> WellFormed(r.value.seedType) && r.value.seedType.verboseName == seedType
    ensures r.Ok? ==> r.value.isGmo.None? && r.value.description.None?
  {
    match FromStr(seedType)
    case Ok(t) => Ok(SeedBag(quantity, t, species, None, None))
    case Err(_) => Err(InvalidSeedType)
  }
}
