/** The cache key of a weather lookup (`controllers/weather.controller.js`,
    line 27): `<city>:unit=<unit>:days=<days>`, and the reading of such a key
    back into its three parts. */
module CacheKey {
  import opened Wrappers

  /** The template literal of line 27. */
  function Key(city: string, unit: string, days: string): (k: string)
    ensures |k| == |city| + |unit| + |days| + 12
    ensures k[..|city|] == city
  {
    city + ":unit=" + unit + ":days=" + days
  }

  /** Splits at the last colon: what precedes it and what follows it. */
  function SplitAtLastColon(s: string): (r: Option<(string, string)>)
    ensures r.None? <==> ':' !in s
    ensures r.Some? ==> s == r.value.0 + ":" + r.value.1 && ':' !in r.value.1
    decreases |s|
  {
    if s == [] then None
    else if s[|s| - 1] == ':' then Some((s[..|s| - 1], ""))
    else
      var init, c := s[..|s| - 1], s[|s| - 1];
      assert s == init + [c];
      match SplitAtLastColon(init)
      case None => None
      case Some((a, b)) =>
        assert s == a + ":" + (b + [c]);
        Some((a, b + [c]))
  }

  /** Reads a key back as its city, unit and days: the days follow the last
      colon, the unit the colon before it, and the city is everything before
      that (a city may itself hold colons). */
  function ParseKey(k: string): Option<(string, string, string)> {
    match SplitAtLastColon(k)
    case None => None
    case Some((front, d)) =>
      if |d| < 5 || d[..5] != "days=" then None
      else
        match SplitAtLastColon(front)
        case None => None
        case Some((city, u)) =>
          if |u| < 5 || u[..5] != "unit=" then None
          else Some((city, u[5..], d[5..]))
  }

  /** Whatever the parser reads out of a key rebuilds exactly that key. */
  lemma ParseKeySound(k: string)
    requires ParseKey(k).Some?
    ensures var (city, unit, days) := ParseKey(k).value; k == Key(city, unit, days)
  {
    var (front, d) := SplitAtLastColon(k).value;
    var (city, u) := SplitAtLastColon(front).value;
    KeyOfTaggedParts(city, u, d);
  }

  /** A city, a `unit=` part and a `days=` part joined by colons form the key
      of their values. */
  lemma KeyOfTaggedParts(city: string, u: string, d: string)
    requires |u| >= 5 && u[..5] == "unit=" && |d| >= 5 && d[..5] == "days="
    ensures city + ":" + u + ":" + d == Key(city, u[5..], d[5..])
  {
    var unit, days := u[5..], d[5..];
    assert ":" + u == ":unit=" + unit by {
      assert u == u[..5] + u[5..];
    }
    assert ":" + d == ":days=" + days by {
      assert d == d[..5] + d[5..];
    }
    calc {
      city + ":" + u + ":" + d;
      city + (":" + u) + (":" + d);
      city + (":unit=" + unit) + (":days=" + days);
      city + ":unit=" + unit + ":days=" + days;
    }
  }

  /** Splitting at the last colon finds the colon placed last. */
  lemma {:induction false} SplitAtLastColonOf(a: string, b: string)
    requires ':' !in b
    ensures SplitAtLastColon(a + ":" + b) == Some((a, b))
    decreases |b|
  {
    var s := a + ":" + b;
    if b == [] {
      assert s[..|s| - 1] == a;
    } else {
      var b', c := b[..|b| - 1], b[|b| - 1];
      assert s[|s| - 1] == c && c != ':' && s[..|s| - 1] == a + ":" + b' by {
        assert s == (a + ":" + b') + [c];
      }
      assert ':' !in b' by {
        assert forall x <- b' :: x in b;
      }
      SplitAtLastColonOf(a, b');
      assert b' + [c] == b;
    }
  }

  /** A key whose unit and days hold no colon reads back as the values it was
      built from, whatever the city. */
  lemma ParseKeyOfKey(city: string, unit: string, days: string)
    requires ':' !in unit && ':' !in days
    ensures ParseKey(Key(city, unit, days)) == Some((city, unit, days))
  {
    var front := city + ":" + ("unit=" + unit);
    var d := "days=" + days;
    var u := "unit=" + unit;
    assert ':' !in d by {
      assert forall i :: 5 <= i < |d| ==> d[i] == days[i - 5];
    }
    assert ':' !in u by {
      assert forall i :: 5 <= i < |u| ==> u[i] == unit[i - 5];
    }
    assert Key(city, unit, days) == front + ":" + d;
    SplitAtLastColonOf(front, d);
    SplitAtLastColonOf(city, u);
    assert d[..5] == "days=" && d[5..] == days;
    assert u[..5] == "unit=" && u[5..] == unit;
  }

  /** Distinct lookups whose units and days hold no colon never share a key. */
  lemma KeyInjective(c1: string, u1: string, d1: string, c2: string, u2: string, d2: string)
    requires ':' !in u1 && ':' !in d1 && ':' !in u2 && ':' !in d2
    ensures Key(c1, u1, d1) == Key(c2, u2, d2) <==> (c1, u1, d1) == (c2, u2, d2)
  {
    ParseKeyOfKey(c1, u1, d1);
    ParseKeyOfKey(c2, u2, d2);
  }

  /** The same unit and days give the same key exactly for the same city. */
  lemma KeySameCity(c1: string, c2: string, unit: string, days: string)
    ensures Key(c1, unit, days) == Key(c2, unit, days) <==> c1 == c2
  {
    var tail := ":unit=" + unit + ":days=" + days;
    assert Key(c1, unit, days) == c1 + tail;
    assert Key(c2, unit, days) == c2 + tail;
    if c1 + tail == c2 + tail {
      assert |c1| == |c2|;
      assert c1 == (c1 + tail)[..|c1|];
    }
  }
}
