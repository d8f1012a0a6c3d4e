/**
 The "My Tech Stack" grouping of the portfolio page: a reduce over the skill
 list that builds a dictionary from category to the skills of that category,
 later rendered in key order with `Object.entries`.
 */
module SkillGrouping {

  /** The closed union of category names a skill may carry. */
  datatype Category = Frontend | Backend | Database | Tools

  datatype Skill = Skill(name: string, category: Category)

  /** Some skill of `s` carries category `c`. */
  predicate Occurs(s: seq<Skill>, c: Category)
  {
    exists i :: 0 <= i < |s| && s[i].category == c
  }

  /** The skills of `s` whose category is `c`, in input order. */
  function Members(s: seq<Skill>, c: Category): seq<Skill>
  {
    if s == [] then []
    else
      var last := s[|s| - 1];
      Members(s[..|s| - 1], c) + (if last.category == c then [last] else [])
  }

  /** The categories of `s`, each once, in the order each is first seen. */
  function Keys(s: seq<Skill>): seq<Category>
  {
    if s == [] then []
    else
      var ks, last := Keys(s[..|s| - 1]), s[|s| - 1];
      if last.category in ks then ks else ks + [last.category]
  }

  /** The dictionary the reduce produces: one entry per category that occurs. */
  function GroupBy(s: seq<Skill>): map<Category, seq<Skill>>
  {
    map c | c in Keys(s) :: Members(s, c)
  }

  /** Index of the first skill of `s` with category `c`. */
  function FirstIndex(s: seq<Skill>, c: Category): (r: nat)
    requires Occurs(s, c)
    ensures r < |s| && s[r].category == c
    ensures forall k :: 0 <= k < r ==> s[k].category != c
  {
    if s[0].category == c then 0
    else
      assert Occurs(s[1..], c) by {
        var i :| 0 <= i < |s| && s[i].category == c;
        assert s[1..][i - 1] == s[i];
      }
      1 + FirstIndex(s[1..], c)
  }

  /** Number of skills before index `i` that share the category of `s[i]`. */
  function Rank(s: seq<Skill>, i: nat): nat
    requires i < |s|
  {
    |Members(s[..i], s[i].category)|
  }

  /** Sum of the sizes of the groups of `s` named by `ks`. */
  function SizeSum(s: seq<Skill>, ks: seq<Category>): nat
  {
    if ks == [] then 0
    else SizeSum(s, ks[..|ks| - 1]) + |Members(s, ks[|ks| - 1])|
  }

  /**
   The reduce itself: walk the skills left to right, create a category's
   list the first time the category is seen, then append the skill to it.
   `order` records the insertion order of the keys, which is the order
   `Object.entries` gives them back in.
   */
  method GroupSkills(skills: seq<Skill>) returns (groups: map<Category, seq<Skill>>, order: seq<Category>)
    ensures groups == GroupBy(skills)
    ensures order == Keys(skills)
    ensures forall c :: c in groups <==> c in order
  {
    groups, order := map[], [];
    var i := 0;
    while i < |skills|
      invariant 0 <= i <= |skills|
      invariant order == Keys(skills[..i])
      invariant groups == GroupBy(skills[..i])
    {
      var skill := skills[i];
      GroupByStep(skills, i);
      if skill.category !in groups {
        groups := groups[skill.category := []];
        order := order + [skill.category];
      }
      groups := groups[skill.category := groups[skill.category] + [skill]];
      i := i + 1;
    }
    assert skills[..i] == skills;
  }

  // ---------------------------------------------------------------------
  // Lemmas

  /** A category that never occurs has no members. */
  lemma {:induction false} MembersAbsent(s: seq<Skill>, c: Category)
    requires !Occurs(s, c)
    ensures Members(s, c) == []
  {
    if s != [] {
      var prefix := s[..|s| - 1];
      forall i | 0 <= i < |prefix| ensures prefix[i].category != c {
        assert prefix[i] == s[i];
      }
      MembersAbsent(prefix, c);
      assert s[|s| - 1].category != c;
    }
  }

  /** No category is listed twice. */
  lemma {:induction false} KeysDistinct(s: seq<Skill>)
    ensures forall j, k :: 0 <= j < k < |Keys(s)| ==> Keys(s)[j] != Keys(s)[k]
  {
    if s != [] {
      KeysDistinct(s[..|s| - 1]);
    }
  }

  /** A category is listed exactly when some skill carries it. */
  lemma {:induction false} KeysOccur(s: seq<Skill>)
    ensures forall c :: c in Keys(s) <==> Occurs(s, c)
  {
    if s != [] {
      var prefix, last := s[..|s| - 1], s[|s| - 1];
      KeysOccur(prefix);
      forall c | Occurs(prefix, c) ensures Occurs(s, c) {
        var i :| 0 <= i < |prefix| && prefix[i].category == c;
        assert s[i] == prefix[i];
      }
      forall c | Occurs(s, c) && c != last.category ensures Occurs(prefix, c) {
        var i :| 0 <= i < |s| && s[i].category == c;
        assert prefix[i] == s[i];
      }
    }
  }

  /** Appending a skill appends it to its own group, creating the group if the category is new. */
  lemma GroupBySnoc(p: seq<Skill>, x: Skill)
    ensures Keys(p + [x]) == if x.category in Keys(p) then Keys(p) else Keys(p) + [x.category]
    ensures forall d :: d != x.category ==> Members(p + [x], d) == Members(p, d)
    ensures Members(p + [x], x.category) == Members(p, x.category) + [x]
  {
    var s := p + [x];
    assert s[..|s| - 1] == p;
  }

  /** The dictionary after one more reduce step: skill `i` is pushed onto its own category's list. */
  lemma GroupByStep(s: seq<Skill>, i: nat)
    requires i < |s|
    ensures Keys(s[..i + 1]) == if s[i].category in Keys(s[..i]) then Keys(s[..i]) else Keys(s[..i]) + [s[i].category]
    ensures var before, c := GroupBy(s[..i]), s[i].category;
            GroupBy(s[..i + 1]) == before[c := (if c in before then before[c] else []) + [s[i]]]
  {
    var p, x := s[..i], s[i];
    var c := x.category;
    assert s[..i + 1] == p + [x];
    GroupBySnoc(p, x);
    if c !in Keys(p) {
      KeysOccur(p);
      MembersAbsent(p, c);
    }
    var before, after := GroupBy(p), GroupBy(p + [x]);
    var expected := before[c := Members(p, c) + [x]];
    assert after.Keys == expected.Keys;
    forall d | d in after ensures after[d] == expected[d] {
    }
  }

  /** A group holds only skills of its own category, and no more of them than the input has. */
  lemma {:induction false} MembersOfCategory(s: seq<Skill>, c: Category)
    ensures |Members(s, c)| <= |s|
    ensures forall k :: 0 <= k < |Members(s, c)| ==> Members(s, c)[k].category == c
  {
    if s != [] {
      MembersOfCategory(s[..|s| - 1], c);
    }
  }

  /** A group holds only skills taken from the input. */
  lemma {:induction false} MembersFromInput(s: seq<Skill>, c: Category)
    ensures forall k :: 0 <= k < |Members(s, c)| ==> Members(s, c)[k] in s
  {
    if s != [] {
      var prefix := s[..|s| - 1];
      MembersFromInput(prefix, c);
      forall k | 0 <= k < |Members(s, c)| ensures Members(s, c)[k] in s {
        if k < |Members(prefix, c)| {
          var j :| 0 <= j < |prefix| && prefix[j] == Members(prefix, c)[k];
          assert s[j] == prefix[j];
        }
      }
    }
  }

  /** Grouping distributes over concatenation of the input. */
  lemma {:induction false} MembersAppend(a: seq<Skill>, b: seq<Skill>, c: Category)
    ensures Members(a + b, c) == Members(a, c) + Members(b, c)
  {
    if b == [] {
      assert a + b == a;
    } else {
      var b' := b[..|b| - 1];
      assert (a + b)[..|a + b| - 1] == a + b';
      assert (a + b)[|a + b| - 1] == b[|b| - 1];
      MembersAppend(a, b', c);
    }
  }

  /**
   Skill `i` sits in the group of its own category, at the position given by
   the number of earlier skills of that category.
   */
  lemma MemberAt(s: seq<Skill>, i: nat)
    requires i < |s|
    ensures Rank(s, i) < |Members(s, s[i].category)|
    ensures Members(s, s[i].category)[Rank(s, i)] == s[i]
  {
    var c := s[i].category;
    assert s == s[..i] + [s[i]] + s[i + 1..];
    MembersAppend(s[..i] + [s[i]], s[i + 1..], c);
    MembersAppend(s[..i], [s[i]], c);
    assert Members([s[i]], c) == [s[i]] by {
      assert [s[i]][..0] == [];
    }
  }

  /** Within a group, skills keep their relative input order. */
  lemma StableOrder(s: seq<Skill>, i: nat, j: nat)
    requires i < j < |s| && s[i].category == s[j].category
    ensures Rank(s, i) < Rank(s, j)
  {
    var c := s[i].category;
    assert s[..j] == s[..i + 1] + s[i + 1..j];
    MembersAppend(s[..i + 1], s[i + 1..j], c);
    assert s[..i + 1][..i] == s[..i];
  }

  /** Every skill lands in exactly one group: the one keyed by its category. */
  lemma ExactlyOneGroup(s: seq<Skill>, i: nat)
    requires i < |s|
    ensures s[i].category in GroupBy(s)
    ensures forall c :: c in GroupBy(s) ==> (s[i] in GroupBy(s)[c] <==> c == s[i].category)
  {
    assert Occurs(s, s[i].category);
    KeysOccur(s);
    MemberAt(s, i);
    forall c | c in GroupBy(s) && s[i] in GroupBy(s)[c] ensures c == s[i].category {
      MembersOfCategory(s, c);
    }
  }

  /** A key exists exactly for the categories that occur, and no group is empty. */
  lemma NoEmptyGroup(s: seq<Skill>, c: Category)
    ensures c in GroupBy(s) <==> Occurs(s, c)
    ensures c in GroupBy(s) ==> |GroupBy(s)[c]| > 0
  {
    KeysOccur(s);
    if Occurs(s, c) {
      var i :| 0 <= i < |s| && s[i].category == c;
      MemberAt(s, i);
    }
  }

  /** Adding one skill to the input adds one to the size of its group only. */
  lemma {:induction false} SizeSumSnoc(p: seq<Skill>, x: Skill, ks: seq<Category>)
    requires forall j, k :: 0 <= j < k < |ks| ==> ks[j] != ks[k]
    ensures SizeSum(p + [x], ks) == SizeSum(p, ks) + (if x.category in ks then 1 else 0)
  {
    if ks != [] {
      var init, k := ks[..|ks| - 1], ks[|ks| - 1];
      assert ks == init + [k];
      assert k !in init;
      SizeSumSnoc(p, x, init);
      assert (p + [x])[..|p + [x]| - 1] == p;
    }
  }

  /** The group sizes add up to the number of skills: nothing is lost or duplicated. */
  lemma {:induction false} GroupSizesSum(s: seq<Skill>)
    ensures SizeSum(s, Keys(s)) == |s|
  {
    if s != [] {
      var p, x := s[..|s| - 1], s[|s| - 1];
      assert s == p + [x];
      GroupSizesSum(p);
      KeysDistinct(p);
      SizeSumSnoc(p, x, Keys(p));
      if x.category !in Keys(p) {
        var ks := Keys(p) + [x.category];
        assert ks[..|ks| - 1] == Keys(p);
        KeysOccur(p);
        MembersAbsent(p, x.category);
      }
    }
  }

  /** The first occurrence of an already-seen category does not move when a skill is appended. */
  lemma FirstIndexSnoc(p: seq<Skill>, x: Skill, c: Category)
    requires Occurs(p, c)
    ensures Occurs(p + [x], c) && FirstIndex(p + [x], c) == FirstIndex(p, c)
  {
    var b := FirstIndex(p, c);
    assert (p + [x])[b] == p[b];
    forall k | 0 <= k < b ensures (p + [x])[k].category != c {
      assert (p + [x])[k] == p[k];
    }
  }

  /** Keys come out ordered by the first occurrence of their category in the input. */
  lemma {:induction false} KeysInFirstOccurrenceOrder(s: seq<Skill>, j: nat, k: nat)
    requires j < k < |Keys(s)|
    ensures Occurs(s, Keys(s)[j]) && Occurs(s, Keys(s)[k])
    ensures FirstIndex(s, Keys(s)[j]) < FirstIndex(s, Keys(s)[k])
  {
    KeysOccur(s);
    var p, x := s[..|s| - 1], s[|s| - 1];
    assert s == p + [x];
    var ks := Keys(p);
    if x.category in ks {
      KeysInFirstOccurrenceOrder(p, j, k);
      FirstIndexSnoc(p, x, ks[j]);
      FirstIndexSnoc(p, x, ks[k]);
    } else if k < |ks| {
      KeysInFirstOccurrenceOrder(p, j, k);
      FirstIndexSnoc(p, x, ks[j]);
      FirstIndexSnoc(p, x, ks[k]);
    } else {
      KeysOccur(p);
      FirstIndexSnoc(p, x, ks[j]);
      assert !Occurs(p, x.category);
      forall i | 0 <= i < |p| ensures s[i].category != x.category {
        assert s[i] == p[i];
      }
      assert FirstIndex(s, x.category) == |p|;
    }
  }

  /** The input order `[Frontend, Backend, Frontend, Database]` gives keys `Frontend, Backend, Database`. */
  lemma ExampleKeyOrder(a: string, b: string, c: string, d: string)
    ensures Keys([Skill(a, Frontend), Skill(b, Backend), Skill(c, Frontend), Skill(d, Database)])
         == [Frontend, Backend, Database]
  {
    var s := [Skill(a, Frontend), Skill(b, Backend), Skill(c, Frontend), Skill(d, Database)];
    assert s[..3][..2][..1][..0] == [];
    assert Keys(s[..1]) == [Frontend];
    assert Keys(s[..2]) == [Frontend, Backend] by { assert s[..2][..1] == s[..1]; }
    assert Keys(s[..3]) == [Frontend, Backend] by { assert s[..3][..2] == s[..2]; }
    assert s[..4] == s;
    assert s[..4][..3] == s[..3];
  }
  /** Appending skills whose categories are all already listed adds no key. */
  lemma {:induction false} KeysAppendSeen(a: seq<Skill>, b: seq<Skill>)
    requires forall k :: 0 <= k < |b| ==> b[k].category in Keys(a)
    ensures Keys(a + b) == Keys(a)
  {
    if b == [] {
      assert a + b == a;
    } else {
      var b' := b[..|b| - 1];
      assert (a + b)[..|a + b| - 1] == a + b';
      KeysAppendSeen(a, b');
    }
  }

  /** Appending a run of one new category adds exactly that key, at the end. */
  lemma KeysAppendRun(a: seq<Skill>, b: seq<Skill>, c: Category)
    requires b != [] && c !in Keys(a)
    requires forall k :: 0 <= k < |b| ==> b[k].category == c
    ensures Keys(a + b) == Keys(a) + [c]
  {
    assert a + b == (a + [b[0]]) + b[1..];
    GroupBySnoc(a, b[0]);
    KeysAppendSeen(a + [b[0]], b[1..]);
  }

  /** A run of skills of category `d` contributes all of itself to group `d` and nothing elsewhere. */
  lemma {:induction false} MembersOfRun(b: seq<Skill>, d: Category, c: Category)
    requires forall k :: 0 <= k < |b| ==> b[k].category == d
    ensures Members(b, c) == if c == d then b else []
  {
    if b != [] {
      var b' := b[..|b| - 1];
      forall k | 0 <= k < |b'| ensures b'[k].category == d {
        assert b'[k] == b[k];
      }
      MembersOfRun(b', d, c);
      assert b' + [b[|b| - 1]] == b;
    }
  }

  /**
   The page's `skillsData` literal, which lists its skills in four runs, one
   per category; each run is spelled out separately below.
   */
  function SkillsData(): seq<Skill>
  {
    FrontendSkills() + BackendSkills() + DatabaseSkills() + ToolSkills()
  }

  function FrontendSkills(): seq<Skill>
  {
    [ Skill("React", Frontend), Skill("Next.js", Frontend), Skill("TypeScript", Frontend),
      Skill("JavaScript (ES6+)", Frontend), Skill("HTML5", Frontend), Skill("CSS3", Frontend),
      Skill("Tailwind CSS", Frontend), Skill("Redux", Frontend) ]
  }

  function BackendSkills(): seq<Skill>
  {
    [ Skill("Node.js", Backend), Skill("Express.js", Backend), Skill("RESTful APIs", Backend),
      Skill("GraphQL", Backend) ]
  }

  function DatabaseSkills(): seq<Skill>
  {
    [ Skill("MongoDB", Database), Skill("PostgreSQL", Database), Skill("MySQL", Database),
      Skill("Firebase", Database) ]
  }

  function ToolSkills(): seq<Skill>
  {
    [ Skill("Git & GitHub", Tools), Skill("Docker", Tools), Skill("Jest & RTL", Tools),
      Skill("CI/CD", Tools), Skill("Netlify", Tools) ]
  }

  /** Four non-empty single-category runs give the keys in run order. */
  lemma KeysOfRuns(fe: seq<Skill>, be: seq<Skill>, db: seq<Skill>, tl: seq<Skill>)
    requires fe != [] && be != [] && db != [] && tl != []
    requires forall k :: 0 <= k < |fe| ==> fe[k].category == Frontend
    requires forall k :: 0 <= k < |be| ==> be[k].category == Backend
    requires forall k :: 0 <= k < |db| ==> db[k].category == Database
    requires forall k :: 0 <= k < |tl| ==> tl[k].category == Tools
    ensures Keys(fe + be + db + tl) == [Frontend, Backend, Database, Tools]
  {
    assert Keys(fe) == [Frontend] by {
      assert [] + fe == fe;
      KeysAppendRun([], fe, Frontend);
    }
    assert Keys(fe + be) == [Frontend, Backend] by {
      KeysAppendRun(fe, be, Backend);
    }
    assert Keys(fe + be + db) == [Frontend, Backend, Database] by {
      KeysAppendRun(fe + be, db, Database);
    }
    KeysAppendRun(fe + be + db, tl, Tools);
  }

  /** On the page's own data the section headings come out as Frontend, Backend, Database, Tools. */
  lemma SkillsDataKeys()
    ensures Keys(SkillsData()) == [Frontend, Backend, Database, Tools]
  {
    KeysOfRuns(FrontendSkills(), BackendSkills(), DatabaseSkills(), ToolSkills());
  }

  /** Four consecutive single-category runs group into exactly those runs. */
  lemma MembersOfRuns(fe: seq<Skill>, be: seq<Skill>, db: seq<Skill>, tl: seq<Skill>, c: Category)
    requires forall k :: 0 <= k < |fe| ==> fe[k].category == Frontend
    requires forall k :: 0 <= k < |be| ==> be[k].category == Backend
    requires forall k :: 0 <= k < |db| ==> db[k].category == Database
    requires forall k :: 0 <= k < |tl| ==> tl[k].category == Tools
    ensures Members(fe + be + db + tl, c) == match c
      case Frontend => fe
      case Backend => be
      case Database => db
      case Tools => tl
  {
    MembersAppendRun(fe, be, Backend, c);
    MembersAppendRun(fe + be, db, Database, c);
    MembersAppendRun(fe + be + db, tl, Tools, c);
    MembersOfRun(fe, Frontend, c);
    match c
    case Frontend =>
      assert Members(fe + be + db + tl, c) == fe + [] + [] + [];
    case Backend =>
      assert Members(fe + be + db + tl, c) == [] + be + [] + [];
    case Database =>
      assert Members(fe + be + db + tl, c) == [] + [] + db + [];
    case Tools =>
      assert Members(fe + be + db + tl, c) == [] + [] + [] + tl;
  }

  /** Appending a run of category `d` extends group `d` by the run and no other group. */
  lemma MembersAppendRun(a: seq<Skill>, b: seq<Skill>, d: Category, c: Category)
    requires forall k :: 0 <= k < |b| ==> b[k].category == d
    ensures Members(a + b, c) == Members(a, c) + (if c == d then b else [])
  {
    MembersAppend(a, b, c);
    MembersOfRun(b, d, c);
  }

  /** On the page's own data each group is exactly its run of the literal: 8, 4, 4 and 5 skills. */
  lemma SkillsDataGroups(c: Category)
    ensures Members(SkillsData(), c) == match c
      case Frontend => FrontendSkills()
      case Backend => BackendSkills()
      case Database => DatabaseSkills()
      case Tools => ToolSkills()
  {
    MembersOfRuns(FrontendSkills(), BackendSkills(), DatabaseSkills(), ToolSkills(), c);
  }
}
