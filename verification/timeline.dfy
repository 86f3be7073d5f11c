/**
 * The timeline's icon choice and layout: the first keyword, in a fixed
 * order, found in the lower-cased title picks the icon; without one the
 * position picks it; cards alternate sides.
 */
module Timeline {
  import opened Common
  import opened Text

  datatype Icon = GraduationCap | Code2 | Briefcase | Rocket

  /** The keyword table, in its insertion (and so iteration) order. */
  const Keywords: seq<(string, Icon)> := [
    ("foundation", GraduationCap),
    ("fundamental", Code2),
    ("junior", Briefcase),
    ("modern", Rocket)
  ]

  /** The icons by position, used when no keyword matches. */
  const Defaults: seq<Icon> := [GraduationCap, Code2, Briefcase, Rocket]

  /** Keyword `k` occurs in the lower-cased title. */
  predicate KeyIn(title: string, k: int)
    requires 0 <= k < |Keywords|
  {
    IsInfix(Keywords[k].0, Lower(title))
  }

  /** The first keyword, from position `k` on, that the lower-cased title contains. */
  function FirstKey(lower: string, k: nat): (r: Option<nat>)
    requires k <= |Keywords|
    ensures r.Some? ==> k <= r.value < |Keywords| && IsInfix(Keywords[r.value].0, lower)
    ensures r.Some? ==> forall j :: k <= j < r.value ==> !IsInfix(Keywords[j].0, lower)
    ensures r.None? ==> forall j :: k <= j < |Keywords| ==> !IsInfix(Keywords[j].0, lower)
    decreases |Keywords| - k
  {
    if k == |Keywords| then None
    else if Includes(lower, Keywords[k].0) then Some(k)
    else FirstKey(lower, k + 1)
  }

  /** `getIcon(title, index)`. */
  function GetIcon(title: string, index: nat): (icon: Icon)
    ensures forall k :: 0 <= k < |Keywords| && KeyIn(title, k) && (forall j :: 0 <= j < k ==> !KeyIn(title, j)) ==> icon == Keywords[k].1
    ensures (forall k :: 0 <= k < |Keywords| ==> !KeyIn(title, k)) ==> icon == Defaults[index % |Defaults|]
  {
    assert forall j :: 0 <= j < |Keywords| ==> (KeyIn(title, j) <==> IsInfix(Keywords[j].0, Lower(title)));
    match FirstKey(Lower(title), 0)
    case Some(k) => Keywords[k].1
    case None => Defaults[index % |Defaults|]
  }

  /** The title's case does not matter. */
  lemma CaseInsensitive(title: string, index: nat)
    ensures GetIcon(Lower(title), index) == GetIcon(title, index)
  {
    LowerIdempotent(title);
  }

  /** A keyword in the title beats every later keyword: a title with both "junior" and "modern" but no earlier keyword gets the briefcase. */
  lemma EarlierKeywordWins(title: string, index: nat, j: nat, k: nat)
    requires j < k < |Keywords| && KeyIn(title, j) && KeyIn(title, k)
    ensures GetIcon(title, index) != Keywords[k].1
  {
    var f := FirstKey(Lower(title), 0);
    assert f.Some? && f.value <= j;
  }

  /** The icon does not depend on the position once a keyword matches. */
  lemma KeywordIgnoresPosition(title: string, i1: nat, i2: nat, k: nat)
    requires k < |Keywords| && KeyIn(title, k)
    ensures GetIcon(title, i1) == GetIcon(title, i2)
  {
  }

  /** "Junior Front-end Development (Foundational Stage)" contains "foundation", which comes first, so it gets the graduation cap rather than the briefcase. */
  lemma FoundationalJuniorGetsCap(index: nat)
    ensures GetIcon("Junior Front-end Development (Foundational Stage)", index) == GraduationCap
  {
    var title := "Junior Front-end Development (Foundational Stage)";
    var lower := Lower(title);
    assert lower[30..40] == "foundation";
    assert Keywords[0].0 <= lower[30..];
    assert KeyIn(title, 0);
  }

  /** A timeline entry; `dateRange` may be absent. */
  datatype Item = Item(year: string, title: string, description: string, dateRange: Option<string>)

  /** Where and how one entry is drawn. */
  datatype Card = Card(item: Item, icon: Icon, onLeft: bool)

  /** `TimelinePro({ items })`: nothing for absent or empty items, otherwise one card per item. */
  function Render(items: Option<seq<Item>>): (r: Option<seq<Card>>)
    ensures r.None? <==> items.None? || |items.value| == 0
    ensures r.Some? ==> |r.value| == |items.value|
    ensures r.Some? ==> forall i :: 0 <= i < |r.value| ==> r.value[i].item == items.value[i] && r.value[i].icon == GetIcon(items.value[i].title, i)
    ensures r.Some? ==> forall i :: 0 <= i < |r.value| ==> (r.value[i].onLeft <==> i % 2 == 0)
  {
    match items
    case None => None
    case Some(its) =>
      if |its| == 0 then None
      else Some(seq(|its|, i requires 0 <= i < |its| => Card(its[i], GetIcon(its[i].title, i), i % 2 == 0)))
  }

  /** The first card is on the left and neighbouring cards are on opposite sides. */
  lemma SidesAlternate(items: seq<Item>)
    requires |items| > 0
    ensures var cards := Render(Some(items)).value;
      cards[0].onLeft && forall i :: 0 <= i < |cards| - 1 ==> cards[i].onLeft != cards[i + 1].onLeft
  {
    var cards := Render(Some(items)).value;
    forall i | 0 <= i < |cards| - 1
      ensures cards[i].onLeft != cards[i + 1].onLeft
    {
      assert (i + 1) % 2 == 1 - i % 2;
    }
  }
}
