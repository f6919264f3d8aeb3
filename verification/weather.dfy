/** Weather conditions, their names and the random pick (src/weather_service.rs). */
module Weather {
  import opened Options
  import opened Text

  datatype WeatherCondition = Sunny | Cloudy | Rainy | Snowy | Stormy

  /** The enum's `Default`. */
  const DefaultCondition: WeatherCondition := Sunny

  /** `get_weather_condition`: the lower-case name of a condition. */
  function Name(w: WeatherCondition): (r: string)
    ensures forall i :: 0 <= i < |r| ==> !IsUpper(r[i])
  {
    match w
    case Sunny => "sunny"
    case Cloudy => "cloudy"
    case Rainy => "rainy"
    case Snowy => "snowy"
    case Stormy => "stormy"
  }

  /** `from_str`: case-insensitive; anything unrecognised reads as Sunny, so it never fails. */
  function FromStr(s: string): (r: Option<WeatherCondition>)
    ensures r.Some?
    ensures forall w :: Lower(s) == Name(w) ==> r == Some(w)
    ensures Lower(s) != Name(r.value) ==> r.value == Sunny
  {
    var key := Lower(s);
    if key == "sunny" then Some(Sunny)
    else if key == "cloudy" then Some(Cloudy)
    else if key == "rainy" then Some(Rainy)
    else if key == "snowy" then Some(Snowy)
    else if key == "stormy" then Some(Stormy)
    else Some(Sunny)
  }

  /** Reading a condition's own name gives the condition back. */
  lemma {:induction false} NameRoundTrip(w: WeatherCondition)
    ensures FromStr(Name(w)) == Some(w)
  {
    LowerFixesLowercase(Name(w));
  }

  /** `generate_random_weather_condition`, with the draw from `0..=4` passed in. */
  function FromIndex(idx: nat): (w: WeatherCondition)
    ensures idx > 4 ==> w == Sunny
  {
    match idx
    case 0 => Sunny
    case 1 => Cloudy
    case 2 => Rainy
    case 3 => Snowy
    case 4 => Stormy
    case _ => Sunny
  }

  /** The five draws pick the five conditions, each exactly once. */
  lemma {:induction false} IndexIsBijective(w: WeatherCondition, i: nat, j: nat)
    ensures exists k :: k <= 4 && FromIndex(k) == w
    ensures i <= 4 && j <= 4 && FromIndex(i) == FromIndex(j) ==> i == j
  {
    match w
    case Sunny => assert FromIndex(0) == w;
    case Cloudy => assert FromIndex(1) == w;
    case Rainy => assert FromIndex(2) == w;
    case Snowy => assert FromIndex(3) == w;
    case Stormy => assert FromIndex(4) == w;
  }
}
