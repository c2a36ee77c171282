/** The recency bonus added to a candidate's score (`freshnessBonus`). */
module Freshness {
  import opened Wrappers
  import opened Arith

  /** Milliseconds in a day, `1000 * 60 * 60 * 24`. */
  const MsPerDay: int := 86400000

  /** The bonus of a video published just now. */
  const MaxBonus: real := 0.05

  /** Age after which the bonus has decayed to nothing. */
  const DecayDays: real := 14.0

  /** Linear decay from MaxBonus at age 0 to 0 at DecayDays days, clamped to
      [0, MaxBonus] on both sides (a publication date in the future gets the
      full bonus). */
  function AgeBonus(ageDays: real): (b: real)
    ensures 0.0 <= b <= MaxBonus
    ensures ageDays >= DecayDays ==> b == 0.0
    ensures ageDays <= 0.0 ==> b == MaxBonus
  {
    var bonus := MaxBonus * (1.0 - ageDays / DecayDays);
    MaxReal(0.0, MinReal(MaxBonus, bonus))
  }

  /** The age in days of a timestamp `t` at time `now`, both in milliseconds. */
  function AgeDays(now: int, t: int): real {
    (now - t) as real / MsPerDay as real
  }

  /** `freshnessBonus`: nothing for a missing or empty date string or one
      `parse` (the model of `Date.parse`) rejects, else the decayed bonus of
      its age at `now` (the model of `Date.now()`). */
  function FreshnessBonus(parse: string -> Option<int>, now: int, publishedAt: Option<string>): (b: real)
    ensures 0.0 <= b <= MaxBonus
    ensures publishedAt == None || publishedAt == Some("") ==> b == 0.0
    ensures publishedAt.Some? && parse(publishedAt.value) == None ==> b == 0.0
    ensures publishedAt.Some? && publishedAt.value != "" && parse(publishedAt.value).Some?
            ==> b == AgeBonus(AgeDays(now, parse(publishedAt.value).value))
  {
    if publishedAt == None || publishedAt.value == "" then 0.0
    else
      match parse(publishedAt.value)
      case None => 0.0
      case Some(t) => AgeBonus(AgeDays(now, t))
  }

  /** The bonus never grows with age. */
  lemma {:induction false} AgeBonusMonotone(older: real, younger: real)
    requires younger <= older
    ensures AgeBonus(older) <= AgeBonus(younger)
  {
    var o := MaxBonus * (1.0 - older / DecayDays);
    var y := MaxBonus * (1.0 - younger / DecayDays);
    assert older / DecayDays >= younger / DecayDays;
    assert o <= y;
  }

  /** An earlier timestamp is at least as old, whatever `now` is. */
  lemma {:induction false} AgeDaysMonotone(now: int, earlier: int, later: int)
    requires earlier <= later
    ensures AgeDays(now, earlier) >= AgeDays(now, later)
  {
    assert (now - earlier) as real >= (now - later) as real;
  }

  /** Of two parsed publication dates, the earlier one never earns the larger
      bonus. */
  lemma {:induction false} FreshnessMonotone(parse: string -> Option<int>, now: int, earlier: string, later: string)
    requires earlier != "" && later != ""
    requires parse(earlier).Some? && parse(later).Some?
    requires parse(earlier).value <= parse(later).value
    ensures FreshnessBonus(parse, now, Some(earlier)) <= FreshnessBonus(parse, now, Some(later))
  {
    AgeDaysMonotone(now, parse(earlier).value, parse(later).value);
    AgeBonusMonotone(AgeDays(now, parse(earlier).value), AgeDays(now, parse(later).value));
  }

  /** A date at least fourteen days before `now` earns nothing. */
  lemma {:induction false} FreshnessExpires(parse: string -> Option<int>, now: int, publishedAt: string)
    requires publishedAt != "" && parse(publishedAt).Some?
    requires now - parse(publishedAt).value >= 14 * MsPerDay
    ensures FreshnessBonus(parse, now, Some(publishedAt)) == 0.0
  {
    var t := parse(publishedAt).value;
    assert (now - t) as real >= 14.0 * MsPerDay as real;
    assert AgeDays(now, t) >= DecayDays;
  }
}
