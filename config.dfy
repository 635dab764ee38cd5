/** The fixed configuration tables of the calculator: the seven bodies, the
    priority bodies, the aspect rules, the twelve signs with their 30-degree
    bands, and the calendar start dates used to mark sign transitions. */
module Config {

  import opened Wrappers

  /** The seven bodies looked up at birth and for every day of the year,
      in the order of the body table. */
  datatype Planet = Sun | Moon | Mercury | Venus | Mars | Jupiter | Saturn

  const Planets: seq<Planet> := [Sun, Moon, Mercury, Venus, Mars, Jupiter, Saturn]

  /** Position of a body in the body table. */
  function PlanetIndex(p: Planet): (k: nat)
    ensures k < |Planets| && Planets[k] == p
  {
    match p
    case Sun => 0 case Moon => 1 case Mercury => 2 case Venus => 3
    case Mars => 4 case Jupiter => 5 case Saturn => 6
  }

  /** Bodies whose involvement in an aspect raises its weight. */
  predicate IsPriority(p: Planet)
  {
    p in {Sun, Venus, Mars}
  }

  /** An aspect rule: exact angle, orb tolerance and base score, in degrees
      and points. */
  datatype Aspect = Aspect(angle: real, orb: real, score: real)

  /** The rule table, tested in this order: conjunction, sextile, square,
      trine, opposition. */
  const Aspects: seq<Aspect> := [
    Aspect(0.0, 8.0, 100.0),
    Aspect(60.0, 6.0, 70.0),
    Aspect(90.0, 8.0, 25.0),
    Aspect(120.0, 8.0, 90.0),
    Aspect(180.0, 8.0, 40.0)
  ]

  /** The twelve signs; `Signs[i]` owns the band [30 i, 30 i + 30). */
  datatype Sign =
    Aries | Taurus | Gemini | Cancer | Leo | Virgo |
    Libra | Scorpio | Sagittarius | Capricorn | Aquarius | Pisces

  const Signs: seq<Sign> := [
    Aries, Taurus, Gemini, Cancer, Leo, Virgo,
    Libra, Scorpio, Sagittarius, Capricorn, Aquarius, Pisces
  ]

  /** Lower edge, in degrees, of the band of `Signs[i]`. */
  function BandStart(i: nat): (r: real)
    requires i < |Signs|
    ensures r == 30.0 * i as real
  {
    [0.0, 30.0, 60.0, 90.0, 120.0, 150.0, 180.0, 210.0, 240.0, 270.0, 300.0, 330.0][i]
  }

  /** The label the report writes for a sign. */
  function Name(s: Sign): string
  {
    match s
    case Aries => "Widder"
    case Taurus => "Stier"
    case Gemini => "Zwillinge"
    case Cancer => "Krebs"
    case Leo => "Löwe"
    case Virgo => "Jungfrau"
    case Libra => "Waage"
    case Scorpio => "Skorpion"
    case Sagittarius => "Schütze"
    case Capricorn => "Steinbock"
    case Aquarius => "Wassermann"
    case Pisces => "Fische"
  }

  /** A calendar day of the target year. */
  datatype Date = Date(month: nat, day: nat)

  /** The order in which the transition table lists the signs. */
  const StartOrder: seq<Sign> := [
    Aquarius, Pisces, Aries, Taurus, Gemini, Cancer,
    Leo, Virgo, Libra, Scorpio, Sagittarius, Capricorn
  ]

  /** The fixed calendar day on which each sign starts, whatever the year. */
  function StartDate(s: Sign): Date
  {
    match s
    case Aquarius => Date(1, 20)
    case Pisces => Date(2, 19)
    case Aries => Date(3, 21)
    case Taurus => Date(4, 20)
    case Gemini => Date(5, 21)
    case Cancer => Date(6, 21)
    case Leo => Date(7, 23)
    case Virgo => Date(8, 23)
    case Libra => Date(9, 23)
    case Scorpio => Date(10, 23)
    case Sagittarius => Date(11, 22)
    case Capricorn => Date(12, 22)
  }

  /** The sign, if any, that starts on day `d`: the inverse of `StartDate`. */
  function SignStartingOn(d: Date): (r: Option<Sign>)
    ensures r.Some? ==> StartDate(r.value) == d
    ensures r.None? ==> forall s: Sign :: StartDate(s) != d
  {
    if d == Date(1, 20) then Some(Aquarius)
    else if d == Date(2, 19) then Some(Pisces)
    else if d == Date(3, 21) then Some(Aries)
    else if d == Date(4, 20) then Some(Taurus)
    else if d == Date(5, 21) then Some(Gemini)
    else if d == Date(6, 21) then Some(Cancer)
    else if d == Date(7, 23) then Some(Leo)
    else if d == Date(8, 23) then Some(Virgo)
    else if d == Date(9, 23) then Some(Libra)
    else if d == Date(10, 23) then Some(Scorpio)
    else if d == Date(11, 22) then Some(Sagittarius)
    else if d == Date(12, 22) then Some(Capricorn)
    else None
  }

  /** Start dates and the signs starting on them correspond one to one. */
  lemma SignStartRoundTrip(s: Sign)
    ensures SignStartingOn(StartDate(s)) == Some(s)
    ensures forall x: Sign :: StartDate(x) == StartDate(s) ==> x == s
  {
  }

  /** The transition table lists every sign. */
  lemma StartOrderComplete(x: Sign)
    ensures x in StartOrder
  {
    match x
    case Aquarius => assert StartOrder[0] == x;
    case Pisces => assert StartOrder[1] == x;
    case Aries => assert StartOrder[2] == x;
    case Taurus => assert StartOrder[3] == x;
    case Gemini => assert StartOrder[4] == x;
    case Cancer => assert StartOrder[5] == x;
    case Leo => assert StartOrder[6] == x;
    case Virgo => assert StartOrder[7] == x;
    case Libra => assert StartOrder[8] == x;
    case Scorpio => assert StartOrder[9] == x;
    case Sagittarius => assert StartOrder[10] == x;
    case Capricorn => assert StartOrder[11] == x;
  }
}
