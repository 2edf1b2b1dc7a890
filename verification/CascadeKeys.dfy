/** When two cascade rules share a cooldown: the key joins the trigger and the target with an arrow, and
    names may contain one. */
module CascadeKeys {
  import opened CascadeRules
  import opened CascadeRounds

  const ARROW: string := "->"

  predicate SamePair(a: Rule, b: Rule) {
    a.trigger == b.trigger && a.target == b.target
  }

  /** One name is the other followed by an arrow and more. */
  predicate Splits(long: string, short: string, middle: string) {
    long == short + ARROW + middle
  }

  /** There is an arrow in the name, behind its first character. */
  predicate HasInnerArrow(name: string) {
    exists i :: 1 <= i <= |name| - 2 && name[i] == '-' && name[i + 1] == '>'
  }

  predicate HasArrow(name: string) {
    exists i :: 0 <= i <= |name| - 2 && name[i] == '-' && name[i + 1] == '>'
  }

  /** What the longer of two colliding triggers looks like. */
  lemma LongerSplits(a: Rule, b: Rule) returns (middle: string)
    requires |b.trigger| < |a.trigger| && Key(a) == Key(b)
    ensures Splits(a.trigger, b.trigger, middle) && b.target == middle + ARROW + a.target
  {
    var key, p, q := Key(a), |b.trigger|, |a.trigger|;
    assert key[p] == '-' && key[p + 1] == '>' && key[q] == '-' && key[q + 1] == '>';
    middle := a.trigger[p + 2..];
    assert a.trigger == key[..q] && b.trigger == key[..p] && a.target == key[q + 2..] && b.target == key[p + 2..];
    assert key[p + 2..] == key[p + 2..q] + key[q..q + 2] + key[q + 2..];
    assert key[..q] == key[..p] + key[p..p + 2] + key[p + 2..q];
    assert key[q..q + 2] == ARROW && key[p..p + 2] == ARROW;
  }

  lemma SplitsCollide(a: Rule, b: Rule, middle: string)
    requires Splits(a.trigger, b.trigger, middle) && b.target == middle + ARROW + a.target
    ensures Key(a) == Key(b)
  {
    assert b.trigger + ARROW + (middle + ARROW + a.target) == b.trigger + ARROW + middle + ARROW + a.target;
  }

  lemma SameLengthKeys(a: Rule, b: Rule)
    requires |a.trigger| == |b.trigger| && Key(a) == Key(b)
    ensures SamePair(a, b)
  {
    var p := |a.trigger|;
    assert a.trigger == Key(a)[..p] && b.trigger == Key(b)[..p];
    assert a.target == Key(a)[p + 2..] && b.target == Key(b)[p + 2..];
  }

  /** A rule for the longer trigger and one for the shorter that share a cooldown. */
  lemma Collision(long: string, short: string, middle: string) returns (a: Rule, b: Rule)
    requires short != "" && Splits(long, short, middle)
    ensures ValidRule(a) && ValidRule(b) && a.trigger == long && b.trigger == short && Key(a) == Key(b)
  {
    a := Rule(long, 0, ">=", long + "x", 1.0, 0, 0, 0, 0);
    b := Rule(short, 0, ">=", middle + ARROW + a.target, 1.0, 0, 0, 0, 0);
    assert |b.target| > |b.trigger| && |a.target| > |a.trigger|;
    SplitsCollide(a, b, middle);
  }

  /** For any set of trigger names: valid rules with these triggers that share a cooldown have the same
      trigger and target, exactly if no name is another one followed by an arrow. */
  lemma KeysDistinguishRules(names: set<string>)
    requires "" !in names
    ensures (forall a, b :: ValidRule(a) && ValidRule(b) && a.trigger in names && b.trigger in names && Key(a) == Key(b)
               ==> SamePair(a, b))
            <==> (forall long, short, middle :: long in names && short in names ==> !Splits(long, short, middle))
  {
    if long, short, middle :| long in names && short in names && Splits(long, short, middle) {
      var a, b := Collision(long, short, middle);
      assert ValidRule(a) && ValidRule(b) && Key(a) == Key(b) && !SamePair(a, b);
    } else {
      forall a, b | ValidRule(a) && ValidRule(b) && a.trigger in names && b.trigger in names && Key(a) == Key(b)
        ensures SamePair(a, b)
      {
        NoSplitNoCollision(a, b);
      }
    }
  }

  lemma NoSplitNoCollision(a: Rule, b: Rule)
    requires Key(a) == Key(b)
    requires forall middle :: !Splits(a.trigger, b.trigger, middle) && !Splits(b.trigger, a.trigger, middle)
    ensures SamePair(a, b)
  {
    if |a.trigger| == |b.trigger| {
      SameLengthKeys(a, b);
    } else if |b.trigger| < |a.trigger| {
      var middle := LongerSplits(a, b);
    } else {
      var middle := LongerSplits(b, a);
    }
  }

  /** A single name collides with that of a shorter trigger exactly if it has an arrow behind its first
      character. */
  lemma ArrowNamesCollide(name: string)
    ensures (exists a, b ::
               ValidRule(a) && ValidRule(b) && a.trigger == name && |b.trigger| < |name| && Key(a) == Key(b))
            <==> HasInnerArrow(name)
  {
    if i :| 1 <= i <= |name| - 2 && name[i] == '-' && name[i + 1] == '>' {
      assert name == name[..i] + ARROW + name[i + 2..];
      var a, b := Collision(name, name[..i], name[i + 2..]);
    } else if a, b :| ValidRule(a) && ValidRule(b) && a.trigger == name && |b.trigger| < |name| && Key(a) == Key(b) {
      var middle := LongerSplits(a, b);
      assert name[|b.trigger|] == '-' && name[|b.trigger| + 1] == '>';
    }
  }

  /** Rules whose triggers have no arrow share a cooldown only with the same trigger and target; so the
      convergence theorems apply to them. */
  lemma PlainNamesHaveDistinctKeys(rules: seq<Rule>)
    requires forall r :: r in rules ==> !HasArrow(r.trigger)
    ensures forall a, b :: a in rules && b in rules && Key(a) == Key(b) ==> SamePair(a, b)
    ensures KeysByTarget(rules)
  {
    forall a, b | a in rules && b in rules && Key(a) == Key(b)
      ensures SamePair(a, b)
    {
      forall middle
        ensures !Splits(a.trigger, b.trigger, middle) && !Splits(b.trigger, a.trigger, middle)
      {
        PlainNamesDoNotSplit(a.trigger, b.trigger, middle);
        PlainNamesDoNotSplit(b.trigger, a.trigger, middle);
      }
      NoSplitNoCollision(a, b);
    }
  }

  lemma PlainNamesDoNotSplit(long: string, short: string, middle: string)
    requires !HasArrow(long)
    ensures !Splits(long, short, middle)
  {
    var split := short + ARROW + middle;
    assert split[|short|] == '-' && split[|short| + 1] == '>';
  }
}
