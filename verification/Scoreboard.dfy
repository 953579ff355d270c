/** The scoreboard of svcs/amigo/table.go: grouping by category, stable sorting by points, summing. */
module Scoreboard {
  import opened Wrappers
  import T = Teams

  /** What the event knows about a challenge. */
  datatype Config = Config(name: string, tag: T.Tag, points: nat, category: string)

  /** What the scoreboard shows of it. */
  datatype Entry = Entry(name: string, tag: T.Tag, points: nat)

  datatype Category = Category(name: string, chals: seq<Entry>)

  datatype TeamRow = TeamRow(completions: seq<Option<T.Time>>, points: seq<nat>, total: nat)

  const UINT: nat := 0x1_0000_0000_0000_0000   // totals wrap around like Go's 64-bit uint

  function Shown(c: Config): Entry { Entry(c.name, c.tag, c.points) }

  function Entries(cs: seq<Config>): (es: seq<Entry>)
    ensures |es| == |cs|
    ensures forall i :: 0 <= i < |cs| ==> es[i] == Shown(cs[i])
  {
    if cs == [] then [] else Entries(cs[..|cs| - 1]) + [Shown(cs[|cs| - 1])]
  }

  // ----- Categories -----

  function Categories(cs: seq<Config>): seq<string> {
    if cs == [] then []
    else
      var cats := Categories(cs[..|cs| - 1]);
      if cs[|cs| - 1].category in cats then cats else cats + [cs[|cs| - 1].category]
  }

  method GetChallengeCategories(challenges: seq<Config>) returns (cats: seq<string>)
    ensures cats == Categories(challenges)
  {
    var keys: set<string> := {};
    cats := [];
    for i := 0 to |challenges|
      invariant cats == Categories(challenges[..i])
      invariant forall c :: c in keys <==> c in cats
    {
      assert challenges[..i + 1][..i] == challenges[..i];
      if challenges[i].category !in keys {
        keys := keys + {challenges[i].category};
        cats := cats + [challenges[i].category];
      }
    }
    assert challenges[..|challenges|] == challenges;
  }

  predicate NoDuplicates(ss: seq<string>) { forall i, j :: 0 <= i < j < |ss| ==> ss[i] != ss[j] }

  /** `k` is where category `cat` first occurs. */
  predicate FirstAt(cs: seq<Config>, cat: string, k: int) {
    0 <= k < |cs| && cs[k].category == cat && forall j :: 0 <= j < k ==> cs[j].category != cat
  }

  /** The categories are those of the challenges, each once, in the order of their first occurrence. */
  lemma {:induction false} CategoriesInFirstOccurrenceOrder(cs: seq<Config>)
    ensures NoDuplicates(Categories(cs))
    ensures forall i :: 0 <= i < |cs| ==> cs[i].category in Categories(cs)
    ensures FirstOccurrenceOrder(cs, Categories(cs))
  {
    if cs == [] {
      assert Firsts(cs, [], []);
    } else {
      var n := |cs| - 1;
      var most, cats := cs[..n], Categories(cs[..n]);
      CategoriesInFirstOccurrenceOrder(most);
      var ks :| Firsts(most, cats, ks);
      assert cs == most + [cs[n]];
      FirstsStep(most, cs[n], cats, ks);
      assert Categories(cs) == if cs[n].category in cats then cats else cats + [cs[n].category];
      hide Categories;
    }
  }

  lemma FirstsStep(cs: seq<Config>, c: Config, cats: seq<string>, ks: seq<int>)
    requires Firsts(cs, cats, ks) && forall i :: 0 <= i < |cs| ==> cs[i].category in cats
    ensures c.category in cats ==> Firsts(cs + [c], cats, ks)
    ensures c.category !in cats ==> Firsts(cs + [c], cats + [c.category], ks + [|cs|])
  {
    assert forall i :: 0 <= i < |cats| ==> FirstAt(cs + [c], cats[i], ks[i]);
    if c.category !in cats {
      assert forall i :: 0 <= i < |cs| ==> (cs + [c])[i] == cs[i];
      assert FirstAt(cs + [c], c.category, |cs|);
    }
  }

  /** `ks` lists where each category first occurs. */
  ghost predicate Firsts(cs: seq<Config>, cats: seq<string>, ks: seq<int>) {
    && |ks| == |cats|
    && (forall i :: 0 <= i < |cats| ==> FirstAt(cs, cats[i], ks[i]))
    && (forall i, j :: 0 <= i < j < |ks| ==> ks[i] < ks[j])
  }

  ghost predicate FirstOccurrenceOrder(cs: seq<Config>, cats: seq<string>) { exists ks :: Firsts(cs, cats, ks) }

  // ----- Grouping -----

  function Group(cs: seq<Config>, cat: string): seq<Entry> {
    if cs == [] then []
    else Group(cs[..|cs| - 1], cat) + if cs[|cs| - 1].category == cat then [Shown(cs[|cs| - 1])] else []
  }

  // ----- Stable sorting -----

  predicate Sorted(es: seq<Entry>) { forall i, j :: 0 <= i < j < |es| ==> es[i].points <= es[j].points }

  /** The entries with `p` points, in their order. */
  function With(es: seq<Entry>, p: nat): seq<Entry> {
    if es == [] then [] else (if es[0].points == p then [es[0]] else []) + With(es[1..], p)
  }

  /** `out` is `es` sorted by points, entries of equal points in their old order: the contract of
      sort.SliceStable. */
  ghost predicate StablySorted(es: seq<Entry>, out: seq<Entry>) {
    Sorted(out) && forall p :: With(out, p) == With(es, p)
  }

  function Insert(e: Entry, es: seq<Entry>): seq<Entry> {
    if es == [] || e.points <= es[0].points then [e] + es else [es[0]] + Insert(e, es[1..])
  }

  function Sort(es: seq<Entry>): seq<Entry> {
    if es == [] then [] else Insert(es[0], Sort(es[1..]))
  }

  lemma {:induction false} InsertSorts(e: Entry, es: seq<Entry>)
    requires Sorted(es)
    ensures Sorted(Insert(e, es)) && |Insert(e, es)| == |es| + 1
    ensures multiset(Insert(e, es)) == multiset(es) + multiset{e}
    ensures Insert(e, es)[0] == e || (es != [] && Insert(e, es)[0] == es[0])
  {
    if es == [] || e.points <= es[0].points {
    } else {
      InsertSorts(e, es[1..]);
      assert es == [es[0]] + es[1..];
      var rest := Insert(e, es[1..]);
      hide Insert;
      assert forall k :: 0 <= k < |rest| ==> rest[0].points <= rest[k].points;
      assert es[0].points <= rest[0].points;
    }
  }

  lemma {:induction false} InsertIsStable(e: Entry, es: seq<Entry>, p: nat)
    ensures With(Insert(e, es), p) == (if e.points == p then [e] else []) + With(es, p)
  {
    if es == [] || e.points <= es[0].points {
      assert ([e] + es)[1..] == es;
    } else {
      InsertIsStable(e, es[1..], p);
      assert ([es[0]] + Insert(e, es[1..]))[1..] == Insert(e, es[1..]);
      var rest := With(es[1..], p);
      assert With(Insert(e, es), p) == (if es[0].points == p then [es[0]] else []) + With(Insert(e, es[1..]), p);
      hide Insert, With;
      if es[0].points == p {
        assert [] + rest == rest;
      } else {
        assert [] + With(Insert(e, es[1..]), p) == With(Insert(e, es[1..]), p) && [] + rest == rest;
      }
    }
  }

  lemma {:induction false} SortPermutes(es: seq<Entry>)
    ensures Sorted(Sort(es)) && multiset(Sort(es)) == multiset(es)
  {
    if es != [] {
      SortPermutes(es[1..]);
      InsertSorts(es[0], Sort(es[1..]));
      assert es == [es[0]] + es[1..];
    }
  }

  lemma {:induction false} SortIsStable(es: seq<Entry>)
    ensures StablySorted(es, Sort(es))
  {
    SortPermutes(es);
    if es != [] {
      SortIsStable(es[1..]);
      InsertSorts(es[0], Sort(es[1..]));
      hide Insert;
      forall p ensures With(Sort(es), p) == With(es, p) { InsertIsStable(es[0], Sort(es[1..]), p); }
    }
  }

  lemma {:induction false} WithHead(es: seq<Entry>, p: nat)
    requires Sorted(es)
    ensures With(es, p) != [] ==> es != [] && es[0].points <= p
    ensures es != [] && es[0].points == p ==> With(es, p) == [es[0]] + With(es[1..], p)
  {
    if es != [] { WithHead(es[1..], p); }
  }

  lemma WithFirst(es: seq<Entry>)
    ensures es != [] ==> With(es, es[0].points) != []
  {
  }

  lemma DropHead(es: seq<Entry>, p: nat)
    requires es != []
    ensures With(es[1..], p) == if es[0].points == p then With(es, p)[1..] else With(es, p)
  {
  }

  /** The contract determines the result, so any stable sort computes `Sort`. */
  lemma {:induction false} StableSortIsUnique(a: seq<Entry>, b: seq<Entry>)
    requires Sorted(a) && Sorted(b) && forall p :: With(a, p) == With(b, p)
    ensures a == b
  {
    WithFirst(b);
    if a == [] {
      assert b != [] ==> With(b, b[0].points) == With(a, b[0].points);
    } else {
      var p := a[0].points;
      WithHead(a, p);
      WithHead(b, p);
      assert With(a, p) != [] && With(b, p) == With(a, p);
      var q := b[0].points;
      WithHead(a, q);
      WithHead(b, q);
      assert With(b, q) != [] && With(b, q) == With(a, q);
      assert p == q && a[0] == With(a, p)[0] == b[0];
      forall r ensures With(a[1..], r) == With(b[1..], r) {
        assert With(a, r) == With(b, r);
        DropHead(a, r);
        DropHead(b, r);
      }
      StableSortIsUnique(a[1..], b[1..]);
    }
  }

  // ----- The table -----

  /** Each category with its challenges sorted. */
  function Table(cs: seq<Config>, cats: seq<string>): (t: seq<Category>)
    ensures |t| == |cats|
    ensures forall i :: 0 <= i < |cats| ==> t[i] == Category(cats[i], Sort(Group(cs, cats[i])))
  {
    if cats == [] then [] else [Category(cats[0], Sort(Group(cs, cats[0])))] + Table(cs, cats[1..])
  }

  /** The table while it is filled: every category holds the challenges of `cs` that belong to it. */
  ghost predicate Grouped(table: seq<Category>, cats: seq<string>, cs: seq<Config>) {
    |table| == |cats| && forall i :: 0 <= i < |cats| ==> table[i] == Category(cats[i], Group(cs, cats[i]))
  }

  /** One round of the grouping loop: the inner loop offers the challenge to every category. */
  method Place(table: seq<Category>, c: Config, ghost cats: seq<string>, ghost cs: seq<Config>)
    returns (out: seq<Category>)
    requires Grouped(table, cats, cs)
    ensures Grouped(out, cats, cs + [c])
  {
    out := table;
    for i := 0 to |out|
      invariant |out| == |table|
      invariant forall j :: 0 <= j < i ==> out[j] == Category(cats[j], Group(cs + [c], cats[j]))
      invariant forall j :: i <= j < |table| ==> out[j] == table[j]
    {
      assert out[i] == Category(cats[i], Group(cs, cats[i]));
      GroupSnoc(cs, c, cats[i]);
      hide Group;
      if out[i].name == c.category {
        out := out[i := out[i].(chals := out[i].chals + [Shown(c)])];
      }
    }
  }

  /** The sorting loop. */
  method SortAll(table: seq<Category>) returns (out: seq<Category>)
    ensures |out| == |table|
    ensures forall i :: 0 <= i < |table| ==> out[i] == Category(table[i].name, Sort(table[i].chals))
  {
    out := table;
    for i := 0 to |out|
      invariant |out| == |table|
      invariant forall j :: 0 <= j < i ==> out[j] == Category(table[j].name, Sort(table[j].chals))
      invariant forall j :: i <= j < |table| ==> out[j] == table[j]
    {
      if |out[i].chals| > 0 {
        var sorted := SliceStable(out[i].chals);
        out := out[i := out[i].(chals := sorted)];
      }
    }
  }

  /** The loops of initTeams.  `SliceStable` stands for the library call; StableSortIsUnique says that its
      contract leaves no choice. */
  method BuildTable(challenges: seq<Config>) returns (table: seq<Category>)
    ensures table == Table(challenges, Categories(challenges))
  {
    var cats := GetChallengeCategories(challenges);
    NothingGrouped();
    hide Sort, Group;
    table := seq(|cats|, i requires 0 <= i < |cats| => Category(cats[i], []));
    for k := 0 to |challenges|
      invariant Grouped(table, cats, challenges[..k])
    {
      assert challenges[..k + 1] == challenges[..k] + [challenges[k]];
      table := Place(table, challenges[k], cats, challenges[..k]);
    }
    assert challenges[..|challenges|] == challenges;
    table := SortAll(table);
    assert table == Table(challenges, cats);
  }

  lemma NothingGrouped()
    ensures forall cat :: Group([], cat) == []
  {
  }

  method SliceStable(es: seq<Entry>) returns (out: seq<Entry>)
    ensures StablySorted(es, out) && out == Sort(es)
  {
    SortIsStable(es);
    out := Sort(es);
  }

  function Flat(t: seq<Category>): seq<Entry> {
    if t == [] then [] else t[0].chals + Flat(t[1..])
  }

  /** What challenge `c` adds to a table with or without its category. */
  ghost function Added(c: Config, here: bool): multiset<Entry> { if here then multiset{Shown(c)} else multiset{} }

  // Adding a challenge adds one entry to the one category it belongs to.
  lemma {:induction false} FlatSnoc(cs: seq<Config>, c: Config, cats: seq<string>)
    requires NoDuplicates(cats)
    ensures multiset(Flat(Table(cs + [c], cats))) == multiset(Flat(Table(cs, cats))) + Added(c, c.category in cats)
  {
    if cats == [] {
      assert Table(cs, cats) == [] && Table(cs + [c], cats) == [];
    } else {
      hide Sort, Group, Table, Flat, Added;
      FlatSnoc(cs, c, cats[1..]);
      AddedOnce(c, cats);
      FlatSnocStep(cs, c, cats, Added(c, c.category in cats[1..]));
    }
  }

  lemma FlatSnocStep(cs: seq<Config>, c: Config, cats: seq<string>, added: multiset<Entry>)
    requires cats != []
    requires multiset(Flat(Table(cs + [c], cats[1..]))) == multiset(Flat(Table(cs, cats[1..]))) + added
    ensures multiset(Flat(Table(cs + [c], cats)))
            == multiset(Flat(Table(cs, cats))) + (Added(c, c.category == cats[0]) + added)
  {
    hide Sort, Group, Table, Flat, Added;
    FlatHead(cs, cats);
    FlatHead(cs + [c], cats);
    SortedGroupSnoc(cs, c, cats[0]);
    Exchange(multiset(Sort(Group(cs, cats[0]))), Added(c, c.category == cats[0]),
             multiset(Flat(Table(cs, cats[1..]))), added);
  }

  lemma AddedOnce(c: Config, cats: seq<string>)
    requires NoDuplicates(cats) && cats != []
    ensures Added(c, c.category in cats) == Added(c, c.category == cats[0]) + Added(c, c.category in cats[1..])
  {
    assert c.category in cats <==> c.category == cats[0] || c.category in cats[1..];
    assert c.category == cats[0] ==> c.category !in cats[1..];
  }

  lemma Exchange(a: multiset<Entry>, x: multiset<Entry>, b: multiset<Entry>, y: multiset<Entry>)
    ensures (a + x) + (b + y) == (a + b) + (x + y)
  {
  }

  lemma FlatHead(cs: seq<Config>, cats: seq<string>)
    requires cats != []
    ensures multiset(Flat(Table(cs, cats)))
            == multiset(Sort(Group(cs, cats[0]))) + multiset(Flat(Table(cs, cats[1..])))
  {
    var t := Table(cs, cats);
    assert t[1..] == Table(cs, cats[1..]);
    hide Table, Sort, Group;
    assert Flat(t) == t[0].chals + Flat(t[1..]);
  }

  lemma GroupSnoc(cs: seq<Config>, c: Config, cat: string)
    ensures Group(cs + [c], cat) == Group(cs, cat) + if c.category == cat then [Shown(c)] else []
  {
    assert (cs + [c])[..|cs|] == cs;
  }

  lemma SortedGroupSnoc(cs: seq<Config>, c: Config, cat: string)
    ensures multiset(Sort(Group(cs + [c], cat))) == multiset(Sort(Group(cs, cat))) + Added(c, c.category == cat)
  {
    GroupSnoc(cs, c, cat);
    SortPermutes(Group(cs, cat));
    SortPermutes(Group(cs + [c], cat));
    hide Sort, Group;
  }

  lemma {:induction false} FlatConcat(t: seq<Category>, u: seq<Category>)
    ensures Flat(t + u) == Flat(t) + Flat(u)
  {
    if t == [] {
      assert t + u == u;
    } else {
      FlatConcat(t[1..], u);
      assert (t + u)[1..] == t[1..] + u;
      var head, a, b := t[0].chals, Flat(t[1..]), Flat(u);
      hide Flat;
      assert head + (a + b) == head + a + b;
    }
  }

  lemma {:induction false} TableConcat(cs: seq<Config>, cats: seq<string>, more: seq<string>)
    ensures Table(cs, cats + more) == Table(cs, cats) + Table(cs, more)
  {
  }

  lemma {:induction false} EmptyGroup(cs: seq<Config>, cat: string)
    requires forall i :: 0 <= i < |cs| ==> cs[i].category != cat
    ensures Group(cs, cat) == []
  {
    if cs != [] { EmptyGroup(cs[..|cs| - 1], cat); }
  }

  /** The flattened table is a permutation of the challenges: every challenge once, in one category. */
  lemma {:induction false} TableIsPermutation(cs: seq<Config>)
    ensures multiset(Flat(Table(cs, Categories(cs)))) == multiset(Entries(cs))
  {
    if cs != [] {
      var n := |cs| - 1;
      var most, c, cats := cs[..n], cs[n], Categories(cs[..n]);
      assert cs == most + [c];
      TableIsPermutation(most);
      CategoriesInFirstOccurrenceOrder(most);
      FlatSnoc(most, c, cats);
      if c.category !in cats { NewCategory(most, c, cats); }
      hide Flat, Table;
    }
  }

  lemma NewCategory(cs: seq<Config>, c: Config, cats: seq<string>)
    requires forall i :: 0 <= i < |cs| ==> cs[i].category != c.category
    ensures Flat(Table(cs + [c], cats + [c.category])) == Flat(Table(cs + [c], cats)) + [Shown(c)]
  {
    assert (cs + [c])[..|cs|] == cs;
    EmptyGroup(cs, c.category);
    assert Group(cs + [c], c.category) == [Shown(c)];
    assert Sort([Shown(c)]) == [Shown(c)];
    TableConcat(cs + [c], cats, [c.category]);
    FlatConcat(Table(cs + [c], cats), Table(cs + [c], [c.category]));
    assert Table(cs + [c], [c.category]) == [Category(c.category, [Shown(c)])];
    assert Flat([Category(c.category, [Shown(c)])]) == [Shown(c)];
  }

  /** How many challenges have this name, tag, number of points and category. */
  function Challenges(cs: seq<Config>, name: string, tag: T.Tag, points: nat, category: string): nat {
    if cs == [] then 0
    else
      var c := cs[|cs| - 1];
      Challenges(cs[..|cs| - 1], name, tag, points, category)
      + if c.name == name && c.tag == tag && c.points == points && c.category == category then 1 else 0
  }

  lemma {:induction false} GroupHolds(cs: seq<Config>, e: Entry, category: string)
    ensures multiset(Group(cs, category))[e] == Challenges(cs, e.name, e.tag, e.points, category)
  {
    if cs != [] { GroupHolds(cs[..|cs| - 1], e, category); }
  }

  /** The table has a heading for each category, in the order of the categories, and under a heading each name, tag and
      number of points stands as often as there are such challenges of that category. */
  lemma TableHolds(cs: seq<Config>, i: nat, e: Entry)
    requires i < |Categories(cs)|
    ensures |Table(cs, Categories(cs))| == |Categories(cs)|
    ensures var column := Table(cs, Categories(cs))[i];
      && column.name == Categories(cs)[i]
      && multiset(column.chals)[e] == Challenges(cs, e.name, e.tag, e.points, Categories(cs)[i])
      && Sorted(column.chals)
  {
    var category := Categories(cs)[i];
    GroupHolds(cs, e, category);
    SortPermutes(Group(cs, category));
    hide Sort, Group, Sorted;
  }

  // ----- A team's row -----

  /** The points of the solved entries. */
  ghost function Points(d: T.Data, es: seq<Entry>): nat {
    if es == [] then 0
    else Points(d, es[..|es| - 1])
         + if T.SolvedAt(d, es[|es| - 1].tag).Some? then es[|es| - 1].points else 0
  }

  /** TeamInfo: one cell for each entry of the table, in its order, and the wrapped sum of the solved ones. */
  method TeamInfo(t: T.Team, table: seq<Category>) returns (row: TeamRow)
    requires T.TagsUnique(t.Contents())
    ensures |row.completions| == |row.points| == |Flat(table)|
    ensures forall i :: 0 <= i < |Flat(table)| ==>
              row.points[i] == Flat(table)[i].points
              && row.completions[i] == T.SolvedAt(t.Contents(), Flat(table)[i].tag)
    ensures row.total == Points(t.Contents(), Flat(table)) % UINT
  {
    ghost var d, done := t.Contents(), [];
    assert Flat(table[..0]) == [] && RowOf(d, [], TeamRow([], [], 0));
    row := TeamRow([], [], 0);
    for i := 0 to |table|
      invariant done == Flat(table[..i]) && RowOf(d, done, row)
    {
      for k := 0 to |table[i].chals|
        invariant done == Flat(table[..i]) + table[i].chals[..k] && RowOf(d, done, row)
      {
        hide RowOf, Flat, T.SolvedAt, T.Answer;
        var c := table[i].chals[k];
        var solved := t.IsTeamSolvedChallenge(c.tag);
        T.AnswerIsUnique(d, c.tag, solved, T.SolvedAt(d, c.tag));
        AddCell(d, done, row, c);
        row := TeamRow(row.completions + [solved], row.points + [c.points],
                       if solved.Some? then (row.total + c.points) % UINT else row.total);
        done := done + [c];
      }
      FlatNext(table, i);
    }
    assert table[..|table|] == table;
  }

  lemma FlatNext(table: seq<Category>, i: nat)
    requires i < |table|
    ensures Flat(table[..i + 1]) == Flat(table[..i]) + table[i].chals
  {
    assert table[..i + 1] == table[..i] + [table[i]];
    FlatConcat(table[..i], [table[i]]);
    assert Flat([table[i]]) == table[i].chals;
  }

  ghost predicate RowOf(d: T.Data, done: seq<Entry>, row: TeamRow) {
    && |row.completions| == |row.points| == |done|
    && (forall i :: 0 <= i < |done| ==>
          row.points[i] == done[i].points && row.completions[i] == T.SolvedAt(d, done[i].tag))
    && row.total == Points(d, done) % UINT
  }

  lemma AddCell(d: T.Data, done: seq<Entry>, row: TeamRow, c: Entry)
    requires RowOf(d, done, row)
    ensures var solved := T.SolvedAt(d, c.tag);
      RowOf(d, done + [c], TeamRow(row.completions + [solved], row.points + [c.points],
                                   if solved.Some? then (row.total + c.points) % UINT else row.total))
  {
    var solved, more := T.SolvedAt(d, c.tag), done + [c];
    assert more[..|done|] == done && more[|done|] == c;
    assert Points(d, more) == Points(d, done) + if solved.Some? then c.points else 0;
    var total := Points(d, done);
    hide Points, T.SolvedAt;
    assert (total % UINT + c.points) % UINT == (total + c.points) % UINT;
  }

  lemma {:induction false} PointsConcat(d: T.Data, a: seq<Entry>, b: seq<Entry>)
    ensures Points(d, a + b) == Points(d, a) + Points(d, b)
  {
    if b == [] {
      assert a + b == a;
    } else {
      PointsConcat(d, a, b[..|b| - 1]);
      assert (a + b)[..|a + b| - 1] == a + b[..|b| - 1];
    }
  }

  lemma {:induction false} PointsIgnoreOrder(d: T.Data, a: seq<Entry>, b: seq<Entry>)
    requires multiset(a) == multiset(b)
    ensures Points(d, a) == Points(d, b)
  {
    if a == [] {
      assert |b| == |multiset(b)| == 0;
    } else {
      var n := |a| - 1;
      var x := a[n];
      assert a == a[..n] + [x];
      assert x in multiset(b);
      var k :| 0 <= k < |b| && b[k] == x;
      assert b == b[..k] + [x] + b[k + 1..];
      assert multiset(a) == multiset(a[..n]) + multiset{x};
      assert multiset(b) == multiset(b[..k] + b[k + 1..]) + multiset{x};
      assert multiset(a[..n]) == multiset(a) - multiset{x};
      PointsIgnoreOrder(d, a[..n], b[..k] + b[k + 1..]);
      PointsConcat(d, b[..k], [x]);
      PointsConcat(d, b[..k] + [x], b[k + 1..]);
      PointsConcat(d, b[..k], b[k + 1..]);
      PointsConcat(d, a[..n], [x]);
    }
  }

  /** The points of the solved challenges of a list. */
  ghost function SolvedPoints(d: T.Data, cs: seq<Config>): nat {
    if cs == [] then 0
    else
      var c := cs[|cs| - 1];
      SolvedPoints(d, cs[..|cs| - 1]) + if T.SolvedAt(d, c.tag).Some? then c.points else 0
  }

  lemma {:induction false} EntriesCarryPoints(d: T.Data, cs: seq<Config>)
    ensures Points(d, Entries(cs)) == SolvedPoints(d, cs)
  {
    if cs != [] {
      EntriesCarryPoints(d, cs[..|cs| - 1]);
      var es := Entries(cs);
      assert es[..|es| - 1] == Entries(cs[..|cs| - 1]);
    }
  }

  /** A team's total on the scoreboard is the sum of the points of the challenges whose tags it has solved, wherever the
      table puts them. */
  lemma TotalIsSumOfSolved(d: T.Data, cs: seq<Config>)
    ensures Points(d, Flat(Table(cs, Categories(cs)))) == SolvedPoints(d, cs)
  {
    TableIsPermutation(cs);
    PointsIgnoreOrder(d, Flat(Table(cs, Categories(cs))), Entries(cs));
    EntriesCarryPoints(d, cs);
  }

  lemma {:induction false} SameSolvedSamePoints(d: T.Data, e: T.Data, es: seq<Entry>)
    requires forall tag :: T.SolvedAt(d, tag).Some? <==> T.SolvedAt(e, tag).Some?
    ensures Points(d, es) == Points(e, es)
  {
    if es != [] { SameSolvedSamePoints(d, e, es[..|es| - 1]); }
  }

  /** Reloading a team from the database after any run, and adding its tags again, leaves its score as it was. */
  lemma ReloadKeepsScore(start: seq<T.Row>, ops: seq<T.Op>, again: seq<T.Challenge>, es: seq<Entry>)
    requires T.HarmlessRun(T.Fresh(start), ops) && T.DistinctValues(again)
    requires forall t :: T.Has(T.DoAll(T.Fresh(start), ops).team, t) <==> exists c :: c in again && c.tag == t
    ensures var w := T.DoAll(T.Fresh(start), ops);
      Points(T.DoAll(T.Fresh(w.rows), T.Adds(again)).team, es) == Points(w.team, es)
  {
    var w := T.DoAll(T.Fresh(start), ops);
    var v := T.DoAll(T.Fresh(w.rows), T.Adds(again));
    forall tag ensures T.SolvedAt(v.team, tag).Some? <==> T.SolvedAt(w.team, tag).Some? {
      T.ReloadKeepsSolved(start, ops, again, tag);
    }
    SameSolvedSamePoints(v.team, w.team, es);
  }
}
