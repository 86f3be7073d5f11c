/**
 * The Skills page's grouping: `skills.reduce` collects the skills into an
 * object keyed by category, and the page lists the groups in the object's
 * key order, which for string keys is the order of first insertion.
 */
module Skills {
  import opened Common

  datatype Category = Frontend | Backend | Database | Tools

  datatype Skill = Skill(name: string, level: int, category: Category)

  /** The heading shown for each category. */
  function Label(c: Category): string {
    match c
    case Frontend => "Frontend"
    case Backend => "Backend"
    case Database => "Database"
    case Tools => "Tools & Others"
  }

  /** The skills the page lists, written out by category. */
  const Catalog: seq<Skill> := FrontendSkills + BackendSkills + DatabaseSkills + ToolSkills

  const FrontendSkills: seq<Skill> := [
    Skill("HTML5", 95, Frontend),
    Skill("CSS3", 90, Frontend),
    Skill("JavaScript", 92, Frontend),
    Skill("TypeScript", 88, Frontend),
    Skill("React", 90, Frontend),
    Skill("Redux", 85, Frontend),
    Skill("Tailwind CSS", 93, Frontend),
    Skill("Framer Motion", 80, Frontend)
  ]

  const BackendSkills: seq<Skill> := [Skill("Node.js", 85, Backend)]

  const DatabaseSkills: seq<Skill> := [Skill("MongoDB", 80, Database)]

  const ToolSkills: seq<Skill> := [
    Skill("Git", 90, Tools),
    Skill("Docker", 75, Tools),
    Skill("Figma", 85, Tools),
    Skill("Three.js", 70, Tools)
  ]

  /** An object keyed by category, as its entries in key order. */
  type Groups = seq<(Category, seq<Skill>)>

  /** An object's keys are distinct. */
  predicate DistinctKeys(g: Groups) {
    forall i, j :: 0 <= i < j < |g| ==> g[i].0 != g[j].0
  }

  predicate HasKey(g: Groups, c: Category) {
    exists i :: 0 <= i < |g| && g[i].0 == c
  }

  /** The position of key `c`, if present. */
  function KeyIndex(g: Groups, c: Category): (r: Option<nat>)
    ensures r.Some? ==> r.value < |g| && g[r.value].0 == c
    ensures r.None? ==> !HasKey(g, c)
    decreases |g|
  {
    if |g| == 0 then None
    else if g[0].0 == c then Some(0)
    else
      match KeyIndex(g[1..], c)
      case None => None
      case Some(i) => Some(i + 1)
  }

  /** The reducer: push `x` onto its category's array, creating the array (as the last key) when missing. */
  function Add(g: Groups, x: Skill): (r: Groups)
    requires DistinctKeys(g)
    ensures DistinctKeys(r) && HasKey(r, x.category)
    ensures HasKey(g, x.category) ==> |r| == |g|
    ensures HasKey(g, x.category) ==>
      forall i :: 0 <= i < |g| ==> r[i] == if g[i].0 == x.category then (g[i].0, g[i].1 + [x]) else g[i]
    ensures !HasKey(g, x.category) ==> r == g + [(x.category, [x])]
  {
    match KeyIndex(g, x.category)
    case Some(i) =>
      var r := g[i := (x.category, g[i].1 + [x])];
      assert r[i].0 == x.category;
      r
    case None =>
      var r := g + [(x.category, [x])];
      assert r[|g|].0 == x.category;
      r
  }

  /** `skills.reduce(…, {})`. */
  function GroupBy(s: seq<Skill>): (g: Groups)
    ensures DistinctKeys(g)
    decreases |s|
  {
    if |s| == 0 then [] else Add(GroupBy(s[..|s| - 1]), s[|s| - 1])
  }

  /** The categories of `s`, each once, in order of first appearance. */
  function FirstSeen(s: seq<Skill>): (ks: seq<Category>)
    ensures forall i, j :: 0 <= i < j < |ks| ==> ks[i] != ks[j]
    ensures forall c :: c in ks <==> exists i :: 0 <= i < |s| && s[i].category == c
    decreases |s|
  {
    if |s| == 0 then []
    else
      var ks := FirstSeen(s[..|s| - 1]);
      var c := s[|s| - 1].category;
      assert forall i :: 0 <= i < |s| - 1 ==> s[..|s| - 1][i] == s[i];
      if c in ks then ks else ks + [c]
  }

  /** Membership of one category. */
  function Of(c: Category): Skill -> bool {
    (x: Skill) => x.category == c
  }

  /** The reference grouping: one group per category in order of first appearance, holding exactly that category's skills in their original order. */
  function Reference(s: seq<Skill>): (g: Groups)
    ensures |g| == |FirstSeen(s)|
  {
    var ks := FirstSeen(s);
    seq(|ks|, i requires 0 <= i < |ks| => (ks[i], Filter(s, Of(ks[i]))))
  }

  /** A category absent from `s` filters to nothing. */
  lemma {:induction false} FilterAbsent(s: seq<Skill>, c: Category)
    requires forall i :: 0 <= i < |s| ==> s[i].category != c
    ensures Filter(s, Of(c)) == []
    decreases |s|
  {
    if |s| > 0 {
      FilterAbsent(s[..|s| - 1], c);
    }
  }

  /** The reducer applied to the reference grouping of a prefix gives the reference grouping of the longer prefix. */
  lemma AddExtendsReference(s: seq<Skill>, x: Skill)
    ensures Add(Reference(s), x) == Reference(s + [x])
  {
    var s' := s + [x];
    assert s'[..|s'| - 1] == s;
    var ks := FirstSeen(s);
    var g := Reference(s);
    assert forall c :: HasKey(g, c) <==> c in ks by {
      forall c ensures HasKey(g, c) <==> c in ks {
        if c in ks {
          var i :| 0 <= i < |ks| && ks[i] == c;
          assert g[i].0 == c;
        }
      }
    }
    if x.category !in ks {
      FilterAbsent(s, x.category);
      assert Filter(s', Of(x.category)) == [x];
    }
  }

  /** The fold computes the reference grouping. */
  lemma {:induction false} GroupByIsReference(s: seq<Skill>)
    ensures GroupBy(s) == Reference(s)
    decreases |s|
  {
    if |s| == 0 {
    } else {
      var init, last := s[..|s| - 1], s[|s| - 1];
      assert init + [last] == s;
      calc {
        GroupBy(s);
        Add(GroupBy(init), last);
        { GroupByIsReference(init); }
        Add(Reference(init), last);
        { AddExtendsReference(init, last); }
        Reference(s);
      }
    }
  }

  /** The number of skills held by all groups together. */
  function Total(g: Groups): nat
    decreases |g|
  {
    if |g| == 0 then 0 else |g[0].1| + Total(g[1..])
  }

  lemma {:induction false} AddCountsOne(g: Groups, x: Skill)
    requires DistinctKeys(g)
    ensures Total(Add(g, x)) == Total(g) + 1
    decreases |g|
  {
    if |g| == 0 {
    } else if g[0].0 == x.category {
      assert Add(g, x)[1..] == g[1..];
    } else {
      AddCountsOne(g[1..], x);
      assert Add(g, x)[1..] == Add(g[1..], x);
    }
  }

  /** Every skill lands in exactly one group: the groups together hold as many skills as the list. */
  lemma {:induction false} GroupingKeepsCount(s: seq<Skill>)
    ensures Total(GroupBy(s)) == |s|
    decreases |s|
  {
    if |s| > 0 {
      GroupingKeepsCount(s[..|s| - 1]);
      AddCountsOne(GroupBy(s[..|s| - 1]), s[|s| - 1]);
    }
  }

  /** No group is empty, and a category has a group exactly when some skill has it. */
  lemma GroupsNonEmpty(s: seq<Skill>)
    ensures forall i :: 0 <= i < |GroupBy(s)| ==> |GroupBy(s)[i].1| > 0
    ensures forall c :: HasKey(GroupBy(s), c) <==> exists i :: 0 <= i < |s| && s[i].category == c
  {
    GroupByIsReference(s);
    var ks := FirstSeen(s);
    forall i | 0 <= i < |ks|
      ensures |Filter(s, Of(ks[i]))| > 0
    {
      assert ks[i] in ks;
      var j :| 0 <= j < |s| && s[j].category == ks[i];
      FilterKeeps(s, Of(ks[i]), j);
    }
    forall c ensures HasKey(Reference(s), c) <==> c in ks {
      if HasKey(Reference(s), c) {
        var i :| 0 <= i < |Reference(s)| && Reference(s)[i].0 == c;
      }
      if c in ks {
        var i :| 0 <= i < |ks| && ks[i] == c;
        assert Reference(s)[i].0 == c;
      }
    }
  }

  /** An element that passes the test is kept, so the filtered sequence is not empty. */
  lemma {:induction false} FilterKeeps(s: seq<Skill>, p: Skill -> bool, j: int)
    requires 0 <= j < |s| && p(s[j])
    ensures |Filter(s, p)| > 0
    decreases |s|
  {
    if j < |s| - 1 {
      FilterKeeps(s[..|s| - 1], p, j);
    }
  }

  /** Appending skills of one category adds that category at the end unless it was already seen. */
  lemma {:induction false} FirstSeenUniform(a: seq<Skill>, b: seq<Skill>, c: Category)
    requires |b| > 0 && forall i :: 0 <= i < |b| ==> b[i].category == c
    ensures FirstSeen(a + b) == if c in FirstSeen(a) then FirstSeen(a) else FirstSeen(a) + [c]
    decreases |b|
  {
    var ab := a + b;
    assert ab[..|ab| - 1] == a + b[..|b| - 1];
    if |b| == 1 {
      assert ab[..|ab| - 1] == a;
    } else {
      FirstSeenUniform(a, b[..|b| - 1], c);
    }
  }

  /** A run of one category not seen before adds exactly that category. */
  lemma NewRun(a: seq<Skill>, b: seq<Skill>, c: Category, ks: seq<Category>)
    requires FirstSeen(a) == ks && c !in ks
    requires |b| > 0 && forall i :: 0 <= i < |b| ==> b[i].category == c
    ensures FirstSeen(a + b) == ks + [c]
  {
    FirstSeenUniform(a, b, c);
  }

  lemma TwoRuns(f: seq<Skill>, b: seq<Skill>)
    requires |f| > 0 && forall i :: 0 <= i < |f| ==> f[i].category == Frontend
    requires |b| > 0 && forall i :: 0 <= i < |b| ==> b[i].category == Backend
    ensures FirstSeen(f + b) == [Frontend, Backend]
  {
    var none: seq<Skill> := [];
    NewRun(none, f, Frontend, []);
    assert none + f == f;
    NewRun(f, b, Backend, [Frontend]);
  }

  /** Four runs of skills, each of one category and all different, are grouped in the order of the runs. */
  lemma RunsInOrder(f: seq<Skill>, b: seq<Skill>, d: seq<Skill>, t: seq<Skill>)
    requires |f| > 0 && forall i :: 0 <= i < |f| ==> f[i].category == Frontend
    requires |b| > 0 && forall i :: 0 <= i < |b| ==> b[i].category == Backend
    requires |d| > 0 && forall i :: 0 <= i < |d| ==> d[i].category == Database
    requires |t| > 0 && forall i :: 0 <= i < |t| ==> t[i].category == Tools
    ensures FirstSeen(f + b + d + t) == [Frontend, Backend, Database, Tools]
  {
    TwoRuns(f, b);
    var fb := f + b;
    NewRun(fb, d, Database, [Frontend, Backend]);
    var fbd := fb + d;
    NewRun(fbd, t, Tools, [Frontend, Backend, Database]);
  }

  /** The page lists Frontend, Backend, Database, then Tools & Others. */
  lemma CatalogOrder()
    ensures FirstSeen(Catalog) == [Frontend, Backend, Database, Tools]
  {
    RunsInOrder(FrontendSkills, BackendSkills, DatabaseSkills, ToolSkills);
  }

  /** The page's groups, in order: Frontend, Backend, Database, Tools & Others. */
  lemma CatalogGroups()
    ensures |GroupBy(Catalog)| == 4
    ensures forall i :: 0 <= i < 4 ==> GroupBy(Catalog)[i].0 == [Frontend, Backend, Database, Tools][i]
  {
    GroupByIsReference(Catalog);
    CatalogOrder();
  }
}
