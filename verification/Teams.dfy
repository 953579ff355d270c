/** A team's challenges in store/team.go: adding them, verifying flags, and reloading from the database. */
module Teams {
  import opened Wrappers

  type Tag = string
  type Time = int                      // nanoseconds
  const SECOND: Time := 1_000_000_000  // what RFC 3339 without fractions keeps

  datatype Challenge = Challenge(tag: Tag, value: string)
  datatype TeamChallenge = TeamChallenge(tag: Tag, completedAt: Option<Time>)

  /** One entry of the solved-challenges list in the database. */
  datatype Row = Row(tag: Tag, second: int)

  datatype AddResult = Added(flag: string) | Duplicate
  datatype VerifyResult = Accepted | UnknownFlag | AlreadyCompleted | Crashed

  /** The fields of Team that these operations use. */
  datatype Data = Data(challenges: map<string, TeamChallenge>, solvedChalsDB: seq<TeamChallenge>)

  // ----- Specification -----

  predicate Has(d: Data, tag: Tag) { exists f :: f in d.challenges && d.challenges[f].tag == tag }

  /** What the last matching entry of the list says; the source does not stop at the first. */
  function LastSolved(db: seq<TeamChallenge>, tag: Tag): Option<Time> {
    if db == [] then None
    else if db[|db| - 1].tag == tag then db[|db| - 1].completedAt
    else LastSolved(db[..|db| - 1], tag)
  }

  function AfterAdd(d: Data, c: Challenge): Data {
    if Has(d, c.tag) then d
    else d.(challenges := d.challenges[c.value := TeamChallenge(c.tag, LastSolved(d.solvedChalsDB, c.tag))])
  }

  predicate Accepts(d: Data, tag: Tag, f: string) {
    f in d.challenges && d.challenges[f].tag == tag && d.challenges[f].completedAt.None?
  }

  function AfterVerify(d: Data, tag: Tag, f: string, now: Time): Data {
    if Accepts(d, tag, f) then d.(challenges := d.challenges[f := TeamChallenge(tag, Some(now))]) else d
  }

  /** `t` is an answer IsTeamSolvedChallenge may give, depending on the order in which the map is ranged over. */
  ghost predicate Answer(d: Data, tag: Tag, t: Option<Time>) {
    match t
    case Some(_) => exists f :: f in d.challenges && d.challenges[f] == TeamChallenge(tag, t)
    case None => forall f :: f in d.challenges && d.challenges[f].tag == tag ==> d.challenges[f].completedAt.None?
  }

  function ParseRows(rows: seq<Row>): (db: seq<TeamChallenge>)
    ensures |db| == |rows|
    ensures forall i :: 0 <= i < |rows| ==> db[i] == TeamChallenge(rows[i].tag, Some(rows[i].second * SECOND))
  {
    if rows == [] then []
    else ParseRows(rows[..|rows| - 1])
         + [TeamChallenge(rows[|rows| - 1].tag, Some(rows[|rows| - 1].second * SECOND))]
  }

  // ----- The class -----

  class Team {
    var challenges: map<string, TeamChallenge>
    var solvedChalsDB: seq<TeamChallenge>

    function Contents(): Data
      reads this
    {
      Data(challenges, solvedChalsDB)
    }

    /** NewTeam, with the list ParseSolvedChallenges has read from the database. */
    constructor (rows: seq<Row>)
      ensures Contents() == Data(map[], ParseRows(rows))
    {
      challenges := map[];
      var parsed: seq<TeamChallenge> := [];
      for i := 0 to |rows|
        invariant parsed == ParseRows(rows[..i])
      {
        assert rows[..i + 1][..i] == rows[..i];
        parsed := parsed + [TeamChallenge(rows[i].tag, Some(rows[i].second * SECOND))];
      }
      assert rows[..|rows|] == rows;
      solvedChalsDB := parsed;
    }

    method AddChallenge(c: Challenge) returns (r: AddResult)
      modifies this`challenges
      ensures Contents() == AfterAdd(old(Contents()), c)
      ensures r == if Has(old(Contents()), c.tag) then Duplicate else Added(c.value)
    {
      var todo := challenges.Keys;
      while todo != {}
        invariant todo <= challenges.Keys
        invariant forall f :: f in challenges && challenges[f].tag == c.tag ==> f in todo
        decreases |todo|
      {
        var f :| f in todo;
        if challenges[f].tag == c.tag { return Duplicate; }
        todo := todo - {f};
      }
      var solvedOne := TeamChallenge("", None);
      for i := 0 to |solvedChalsDB|
        invariant solvedOne.completedAt == LastSolved(solvedChalsDB[..i], c.tag)
      {
        assert solvedChalsDB[..i + 1][..i] == solvedChalsDB[..i];
        if solvedChalsDB[i].tag == c.tag { solvedOne := solvedChalsDB[i]; }
      }
      assert solvedChalsDB[..|solvedChalsDB|] == solvedChalsDB;
      if solvedOne != TeamChallenge("", None) {
        challenges := challenges[c.value := TeamChallenge(c.tag, solvedOne.completedAt)];
      } else {
        challenges := challenges[c.value := TeamChallenge(c.tag, None)];
      }
      r := Added(c.value);
    }

    /** VerifyFlag at time `now`; `written` says whether the database accepts the new entry.  If it does not, the
        mutex is unlocked twice, which ends the program. */
    method VerifyFlag(tag: Tag, f: string, now: Time, written: bool) returns (r: VerifyResult)
      modifies this`challenges
      ensures Contents() == AfterVerify(old(Contents()), tag, f, now)
      ensures Accepts(old(Contents()), tag, f) ==> r == if written then Accepted else Crashed
      ensures !Accepts(old(Contents()), tag, f) ==>
                r == if f in old(challenges) && old(challenges)[f].tag == tag then AlreadyCompleted else UnknownFlag
    {
      if f !in challenges { return UnknownFlag; }
      var chal := challenges[f];
      if chal.tag != tag { return UnknownFlag; }
      if chal.completedAt.Some? { return AlreadyCompleted; }
      challenges := challenges[f := chal.(completedAt := Some(now))];
      r := if written then Accepted else Crashed;
    }

    method IsTeamSolvedChallenge(tag: Tag) returns (t: Option<Time>)
      ensures Answer(Contents(), tag, t)
    {
      var todo := challenges.Keys;
      while todo != {}
        invariant todo <= challenges.Keys
        invariant forall f :: f in challenges && f !in todo && challenges[f].tag == tag ==>
                                challenges[f].completedAt.None?
        decreases |todo|
      {
        var f :| f in todo;
        if challenges[f].tag == tag && challenges[f].completedAt.Some? { return challenges[f].completedAt; }
        todo := todo - {f};
      }
      t := None;
    }
  }

  // ----- Runs -----

  datatype Op = Add(c: Challenge) | Verify(tag: Tag, f: string, now: Time)

  /** A team and the list the database keeps for it. */
  datatype World = World(team: Data, rows: seq<Row>)

  function Do(w: World, op: Op): World {
    match op
    case Add(c) => w.(team := AfterAdd(w.team, c))
    case Verify(tag, f, now) =>
      World(AfterVerify(w.team, tag, f, now),
            if Accepts(w.team, tag, f) then w.rows + [Row(tag, now / SECOND)] else w.rows)
  }

  function DoAll(w: World, ops: seq<Op>): World {
    if ops == [] then w else Do(DoAll(w, ops[..|ops| - 1]), ops[|ops| - 1])
  }

  function Fresh(rows: seq<Row>): World { World(Data(map[], ParseRows(rows)), rows) }

  ghost predicate TagsUnique(d: Data) {
    forall f, g :: f in d.challenges && g in d.challenges && d.challenges[f].tag == d.challenges[g].tag ==> f == g
  }

  lemma DoKeepsTagsUnique(w: World, op: Op)
    requires TagsUnique(w.team)
    ensures TagsUnique(Do(w, op).team)
  {
  }

  /** In every run, whatever the flag values, no two entries share a tag. */
  lemma {:induction false} RunKeepsTagsUnique(w: World, ops: seq<Op>)
    requires TagsUnique(w.team)
    ensures TagsUnique(DoAll(w, ops).team)
  {
    if ops != [] {
      RunKeepsTagsUnique(w, ops[..|ops| - 1]);
      DoKeepsTagsUnique(DoAll(w, ops[..|ops| - 1]), ops[|ops| - 1]);
    }
  }

  /** So the answer about a tag does not depend on the iteration order. */
  lemma AnswerIsUnique(d: Data, tag: Tag, t: Option<Time>, u: Option<Time>)
    requires TagsUnique(d) && Answer(d, tag, t) && Answer(d, tag, u)
    ensures t == u
  {
  }

  ghost function SolvedAt(d: Data, tag: Tag): (t: Option<Time>)
    ensures Answer(d, tag, t)
  {
    if f :| f in d.challenges && d.challenges[f].tag == tag && d.challenges[f].completedAt.Some?
      then d.challenges[f].completedAt else None
  }

  // ----- Solving is write-once -----

  /** The new flag value does not take the key of a challenge that is already solved. */
  predicate Harmless(d: Data, op: Op) {
    op.Add? ==> Has(d, op.c.tag) || op.c.value !in d.challenges || d.challenges[op.c.value].completedAt.None?
  }

  /** Adding a challenge keeps every completion time exactly when its flag value is harmless. */
  lemma AddKeepsSolvedIff(d: Data, c: Challenge)
    requires TagsUnique(d)
    ensures Harmless(d, Add(c)) <==>
            forall tag :: SolvedAt(d, tag).Some? ==> SolvedAt(AfterAdd(d, c), tag) == SolvedAt(d, tag)
  {
    var e := AfterAdd(d, c);
    DoKeepsTagsUnique(World(d, []), Add(c));
    if Harmless(d, Add(c)) {
      forall tag | SolvedAt(d, tag).Some? ensures SolvedAt(e, tag) == SolvedAt(d, tag) {
        var f :| f in d.challenges && d.challenges[f] == TeamChallenge(tag, SolvedAt(d, tag));
        assert e.challenges[f] == d.challenges[f];
        AnswerIsUnique(e, tag, SolvedAt(e, tag), SolvedAt(d, tag));
      }
    } else {
      var lost := d.challenges[c.value];
      assert Answer(d, lost.tag, lost.completedAt);
      AnswerIsUnique(d, lost.tag, SolvedAt(d, lost.tag), lost.completedAt);
      assert forall f :: f in e.challenges && e.challenges[f].tag == lost.tag ==> f == c.value;
      assert Answer(e, lost.tag, None);
      AnswerIsUnique(e, lost.tag, SolvedAt(e, lost.tag), None);
    }
  }

  ghost predicate HarmlessRun(w: World, ops: seq<Op>) {
    ops == [] || (HarmlessRun(w, ops[..|ops| - 1]) && Harmless(DoAll(w, ops[..|ops| - 1]).team, ops[|ops| - 1]))
  }

  lemma DoKeepsSolved(w: World, op: Op, tag: Tag)
    requires TagsUnique(w.team) && Harmless(w.team, op) && SolvedAt(w.team, tag).Some?
    ensures SolvedAt(Do(w, op).team, tag) == SolvedAt(w.team, tag)
  {
    DoKeepsTagsUnique(w, op);
    if op.Add? {
      AddKeepsSolvedIff(w.team, op.c);
    } else {
      var f :| f in w.team.challenges && w.team.challenges[f] == TeamChallenge(tag, SolvedAt(w.team, tag));
      assert Do(w, op).team.challenges[f] == w.team.challenges[f];
      AnswerIsUnique(Do(w, op).team, tag, SolvedAt(Do(w, op).team, tag), SolvedAt(w.team, tag));
    }
  }

  /** A completion time once set never changes. */
  lemma {:induction false} SolvedForEver(w: World, ops: seq<Op>, tag: Tag)
    requires TagsUnique(w.team) && HarmlessRun(w, ops) && SolvedAt(w.team, tag).Some?
    ensures SolvedAt(DoAll(w, ops).team, tag) == SolvedAt(w.team, tag)
  {
    if ops != [] {
      var v := DoAll(w, ops[..|ops| - 1]);
      SolvedForEver(w, ops[..|ops| - 1], tag);
      RunKeepsTagsUnique(w, ops[..|ops| - 1]);
      DoKeepsSolved(v, ops[|ops| - 1], tag);
    }
  }

  // ----- Reloading -----

  function LastRow(rows: seq<Row>, tag: Tag): Option<int> {
    if rows == [] then None
    else if rows[|rows| - 1].tag == tag then Some(rows[|rows| - 1].second)
    else LastRow(rows[..|rows| - 1], tag)
  }

  function Seconds(t: Option<Time>): Option<int> { if t.None? then None else Some(t.value / SECOND) }

  lemma {:induction false} ParsedLast(rows: seq<Row>, tag: Tag)
    ensures Seconds(LastSolved(ParseRows(rows), tag)) == LastRow(rows, tag)
  {
    if rows != [] {
      ParsedLast(rows[..|rows| - 1], tag);
      var db := ParseRows(rows);
      assert db[..|db| - 1] == ParseRows(rows[..|rows| - 1]);
      assert rows[|rows| - 1].second * SECOND / SECOND == rows[|rows| - 1].second;
    }
  }

  /** About a tag the team has, team and database agree, to the second; about any other tag the database still
      says what it said when the team was loaded. */
  ghost predicate AgreesAt(start: seq<Row>, w: World, tag: Tag) {
    && LastRow(w.rows, tag) == (if Has(w.team, tag) then Seconds(SolvedAt(w.team, tag)) else LastRow(start, tag))
    && (LastRow(w.rows, tag).None? ==> LastRow(start, tag).None?)
  }

  ghost predicate Agrees(start: seq<Row>, w: World) {
    && TagsUnique(w.team)
    && w.team.solvedChalsDB == ParseRows(start)
    && forall tag :: AgreesAt(start, w, tag)
  }

  lemma SolvedAtKey(d: Data, f: string)
    requires TagsUnique(d) && f in d.challenges
    ensures SolvedAt(d, d.challenges[f].tag) == d.challenges[f].completedAt
  {
    var c := d.challenges[f];
    assert Answer(d, c.tag, c.completedAt);
    AnswerIsUnique(d, c.tag, SolvedAt(d, c.tag), c.completedAt);
  }

  // The entry an operation writes.
  lemma WrittenEntryAgrees(start: seq<Row>, w: World, op: Op, key: string)
    requires Agrees(start, w) && Harmless(w.team, op) && Do(w, op).team != w.team
    requires key == if op.Add? then op.c.value else op.f
    ensures AgreesAt(start, Do(w, op), Do(w, op).team.challenges[key].tag)
  {
    var v := Do(w, op);
    var entry := v.team.challenges[key];
    DoKeepsTagsUnique(w, op);
    SolvedAtKey(v.team, key);
    ParsedLast(start, entry.tag);
    assert AgreesAt(start, w, entry.tag);
    if op.Verify? { assert v.rows[..|w.rows|] == w.rows; }
  }

  // The other entries.
  lemma OtherEntryAgrees(start: seq<Row>, w: World, op: Op, key: string, tag: Tag)
    requires Agrees(start, w) && Harmless(w.team, op) && Do(w, op).team != w.team
    requires key == if op.Add? then op.c.value else op.f
    requires Do(w, op).team.challenges[key].tag != tag
    ensures AgreesAt(start, Do(w, op), tag)
  {
    var v := Do(w, op);
    DoKeepsTagsUnique(w, op);
    assert AgreesAt(start, w, tag);
    if op.Verify? { assert v.rows[..|w.rows|] == w.rows; }
    assert forall f :: f in w.team.challenges && f != key ==>
                         f in v.team.challenges && v.team.challenges[f] == w.team.challenges[f];
    if Has(v.team, tag) {
      var f :| f in v.team.challenges && v.team.challenges[f].tag == tag;
      assert f in w.team.challenges && w.team.challenges[f] == v.team.challenges[f];
      SolvedAtKey(v.team, f);
      SolvedAtKey(w.team, f);
    } else if Has(w.team, tag) {
      var f :| f in w.team.challenges && w.team.challenges[f].tag == tag;
      assert f == key;
      SolvedAtKey(w.team, key);
    }
  }

  lemma DoKeepsAgreesAt(start: seq<Row>, w: World, op: Op, tag: Tag)
    requires Agrees(start, w) && Harmless(w.team, op)
    ensures AgreesAt(start, Do(w, op), tag)
  {
    var key := if op.Add? then op.c.value else op.f;
    if Do(w, op).team == w.team {
      assert AgreesAt(start, w, tag);
    } else if Do(w, op).team.challenges[key].tag == tag {
      WrittenEntryAgrees(start, w, op, key);
    } else {
      OtherEntryAgrees(start, w, op, key, tag);
    }
  }

  lemma {:induction false} RunKeepsAgrees(start: seq<Row>, ops: seq<Op>)
    requires HarmlessRun(Fresh(start), ops)
    ensures Agrees(start, DoAll(Fresh(start), ops))
  {
    if ops != [] {
      var w := DoAll(Fresh(start), ops[..|ops| - 1]);
      RunKeepsAgrees(start, ops[..|ops| - 1]);
      DoKeepsTagsUnique(w, ops[|ops| - 1]);
      var v := Do(w, ops[|ops| - 1]);
      forall tag ensures AgreesAt(start, v, tag) {
        DoKeepsAgreesAt(start, w, ops[|ops| - 1], tag);
      }
    }
  }

  /** Adding a list of challenges, as AssignLab does. */
  function Adds(cs: seq<Challenge>): (ops: seq<Op>)
    ensures |ops| == |cs|
  {
    if cs == [] then [] else Adds(cs[..|cs| - 1]) + [Add(cs[|cs| - 1])]
  }

  predicate DistinctValues(cs: seq<Challenge>) { forall i, j :: 0 <= i < j < |cs| ==> cs[i].value != cs[j].value }

  /** The keys and tags of a team are those of a list of challenges. */
  ghost predicate HoldsOf(d: Data, cs: seq<Challenge>) {
    && (forall f :: f in d.challenges ==> exists c :: c in cs && c.value == f)
    && (forall tag :: Has(d, tag) <==> exists c :: c in cs && c.tag == tag)
  }

  lemma {:induction false} AddedChallenges(rows: seq<Row>, cs: seq<Challenge>)
    requires DistinctValues(cs)
    ensures var w := DoAll(Fresh(rows), Adds(cs));
      HarmlessRun(Fresh(rows), Adds(cs)) && w.rows == rows && HoldsOf(w.team, cs)
  {
    hide AfterAdd, HoldsOf, DoAll, Fresh, Adds, HarmlessRun;
    if cs == [] {
      NothingAdded(rows);
    } else {
      var most, c := cs[..|cs| - 1], cs[|cs| - 1];
      AddedChallenges(rows, most);
      var w := DoAll(Fresh(rows), Adds(most));
      AddsStep(rows, cs);
      NewValue(w.team, most, c, cs);
      HoldsMore(w.team, most, c);
      assert cs == most + [c];
    }
  }

  lemma NothingAdded(rows: seq<Row>)
    ensures var w := DoAll(Fresh(rows), Adds([]));
      HarmlessRun(Fresh(rows), Adds([])) && w.rows == rows && HoldsOf(w.team, [])
  {
  }

  lemma AddsStep(rows: seq<Row>, cs: seq<Challenge>)
    requires cs != []
    ensures var c, w := cs[|cs| - 1], DoAll(Fresh(rows), Adds(cs[..|cs| - 1]));
      && DoAll(Fresh(rows), Adds(cs)) == w.(team := AfterAdd(w.team, c))
      && (HarmlessRun(Fresh(rows), Adds(cs[..|cs| - 1])) && c.value !in w.team.challenges ==>
            HarmlessRun(Fresh(rows), Adds(cs)))
  {
    var all := Adds(cs);
    assert all[..|all| - 1] == Adds(cs[..|cs| - 1]) && all[|all| - 1] == Add(cs[|cs| - 1]);
    hide Adds, Fresh, AfterAdd;
  }

  lemma NewValue(d: Data, most: seq<Challenge>, c: Challenge, cs: seq<Challenge>)
    requires HoldsOf(d, most) && DistinctValues(cs) && cs != [] && most == cs[..|cs| - 1] && c == cs[|cs| - 1]
    ensures c.value !in d.challenges
  {
    hide Has;
    forall m | m in most ensures m.value != c.value {
      var i :| 0 <= i < |most| && most[i] == m;
      assert cs[i] == m;
    }
  }

  lemma HoldsMore(d: Data, most: seq<Challenge>, c: Challenge)
    requires HoldsOf(d, most) && c.value !in d.challenges
    ensures HoldsOf(AfterAdd(d, c), most + [c])
  {
    AddsItsTag(d, c);
    hide AfterAdd, Has;
    assert forall m :: m in most + [c] <==> m in most || m == c;
  }

  lemma AddsItsTag(d: Data, c: Challenge)
    requires c.value !in d.challenges
    ensures forall tag :: Has(AfterAdd(d, c), tag) <==> Has(d, tag) || tag == c.tag
    ensures forall f :: f in AfterAdd(d, c).challenges ==> f in d.challenges || f == c.value
  {
    var e := AfterAdd(d, c);
    forall tag ensures Has(e, tag) <==> Has(d, tag) || tag == c.tag {
      if !Has(d, c.tag) {
        assert e.challenges[c.value].tag == c.tag;
        assert forall f :: f in d.challenges ==> f in e.challenges && e.challenges[f] == d.challenges[f];
      }
    }
  }

  /** Reload the team from the database after any run and add its tags again, under any distinct flag values:
      every challenge is solved as before, at the same second, and no other one is. */
  lemma ReloadKeepsSolved(start: seq<Row>, ops: seq<Op>, cs: seq<Challenge>, tag: Tag)
    requires HarmlessRun(Fresh(start), ops) && DistinctValues(cs)
    requires forall t :: Has(DoAll(Fresh(start), ops).team, t) <==> exists c :: c in cs && c.tag == t
    ensures var w := DoAll(Fresh(start), ops);
      Seconds(SolvedAt(DoAll(Fresh(w.rows), Adds(cs)).team, tag)) == Seconds(SolvedAt(w.team, tag))
  {
    var w := DoAll(Fresh(start), ops);
    AddedChallenges(w.rows, cs);
    var v := DoAll(Fresh(w.rows), Adds(cs));
    RunKeepsAgrees(start, ops);
    RunKeepsAgrees(w.rows, Adds(cs));
    assert AgreesAt(start, w, tag) && AgreesAt(w.rows, v, tag);
    assert Has(v.team, tag) <==> Has(w.team, tag);
  }

  /** Each tag is accepted at most once: the rows a run adds carry different tags, none of them solved before. */
  lemma {:induction false} AcceptedOnce(start: seq<Row>, ops: seq<Op>, i: nat)
    requires HarmlessRun(Fresh(start), ops) && |start| <= i < |DoAll(Fresh(start), ops).rows|
    ensures LastRow(DoAll(Fresh(start), ops).rows[..i], DoAll(Fresh(start), ops).rows[i].tag).None?
  {
    var before := ops[..|ops| - 1];
    var w := DoAll(Fresh(start), before);
    var v := DoAll(Fresh(start), ops);
    if i < |w.rows| {
      AcceptedOnce(start, before, i);
      assert v.rows[..i] == w.rows[..i];
    } else {
      RunKeepsAgrees(start, before);
      SolvedAtKey(w.team, ops[|ops| - 1].f);
      assert AgreesAt(start, w, ops[|ops| - 1].tag);
      assert v.rows[..i] == w.rows;
    }
  }

  /** Solved challenges can be lost: a team solves one, and another challenge arrives under the same flag value. */
  lemma SolvedCanBeErased(t: Tag, u: Tag, f: string, now: Time)
    requires t != u
    ensures var before := DoAll(Fresh([]), [Add(Challenge(t, f)), Verify(t, f, now)]);
      SolvedAt(before.team, t) == Some(now) && SolvedAt(Do(before, Add(Challenge(u, f))).team, t) == None
  {
    var w := Fresh([]);
    var a, b, c := Add(Challenge(t, f)), Verify(t, f, now), Add(Challenge(u, f));
    assert [a, b][..1] == [a] && [a][..0] == [];
    assert DoAll(w, [a]) == Do(w, a);
    var before := DoAll(w, [a, b]);
    assert before == Do(Do(w, a), b);
    assert before.team.challenges == map[f := TeamChallenge(t, Some(now))];
    RunKeepsTagsUnique(w, [a, b]);
    SolvedAtKey(before.team, f);
    var after := Do(before, c);
    assert !Has(before.team, u);
    assert after.team.challenges == map[f := TeamChallenge(u, None)];
    DoKeepsTagsUnique(before, c);
    assert Answer(after.team, t, None);
    AnswerIsUnique(after.team, t, SolvedAt(after.team, t), None);
  }
}
