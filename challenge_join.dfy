/** Joining a challenge (src/app/api/challenge/join/route.ts): validate the body, look
    up the caller's match for the challenge and, when there is none, insert a
    zero-score placeholder row into the `matches` table.

    `new Date().toISOString()` is the input `now`. Whether the lookup fails is the input
    `lookupFails`: the route never reads the lookup's error, so a failed lookup reads as
    "no match". Whether the insert fails is the input `insertFails` (a thrown error
    answers 500 the same way). Calls are sequential. */
module ChallengeJoin {
  import opened Common

  /** One row of the `matches` table. */
  datatype MatchRow = MatchRow(
    id: nat,
    challengeId: string,
    userId: string,
    deckId: string,
    score: int,
    maxScore: int,
    playedAt: string)

  datatype MatchesState = MatchesState(rows: seq<MatchRow>, nextId: nat)

  /** The JSON body; any field may be absent. */
  datatype JoinRequest = JoinRequest(
    challengeId: Option<string>,
    userId: Option<string>,
    deckId: Option<string>,
    maxScore: Option<int>)

  datatype JoinResponse =
    | MissingFields          // 400 { error: 'Missing required fields' }
    | Existing(matchId: nat) // 200 { success: true, matchId, status: 'existing' }
    | Joined(matchId: nat)   // 200 { success: true, matchId, status: 'new' }
    | JoinFailed             // 500 { error }

  function HttpStatus(r: JoinResponse): int
  {
    match r
    case MissingFields => 400
    case JoinFailed => 500
    case _ => 200
  }

  /** `maxScore || 0`. */
  function MaxScoreOrZero(m: Option<int>): (r: int)
    ensures m.Some? ==> r == m.value
    ensures m.None? ==> r == 0
  {
    if m.Some? && m.value != 0 then m.value else 0
  }

  predicate HasFields(req: JoinRequest)
  {
    Truthy(req.challengeId) && Truthy(req.userId) && Truthy(req.deckId)
  }

  // ---------------------------------------------------------------------------
  // The lookup

  /** The rows of `(challengeId, userId)`, in table order. */
  function Matching(rows: seq<MatchRow>, challengeId: string, userId: string): (r: seq<MatchRow>)
    ensures |r| <= |rows|
    ensures forall m :: m in r <==> m in rows && m.challengeId == challengeId && m.userId == userId
  {
    if rows == [] then []
    else
      var head := if rows[0].challengeId == challengeId && rows[0].userId == userId then [rows[0]] else [];
      head + Matching(rows[1..], challengeId, userId)
  }

  /** `.eq('challenge_id', c).eq('user_id', u).single()`: data only when exactly one row
      matches; none or several give null. */
  function Single(rows: seq<MatchRow>, challengeId: string, userId: string): (r: Option<MatchRow>)
    ensures r.Some? <==> |Matching(rows, challengeId, userId)| == 1
    ensures r.Some? ==> r.value in rows && r.value.challengeId == challengeId && r.value.userId == userId
  {
    var matching := Matching(rows, challengeId, userId);
    if |matching| == 1 then
      assert matching[0] in matching;
      Some(matching[0])
    else None
  }

  /** The placeholder the route inserts (its id is assigned by the database). */
  function Placeholder(challengeId: string, userId: string, deckId: string, maxScore: Option<int>, now: string): MatchRow
  {
    MatchRow(0, challengeId, userId, deckId, 0, MaxScoreOrZero(maxScore), now)
  }

  /** The whole route on a table value. A failed lookup yields no data, exactly like a
      lookup that found no single row. */
  function Join(t: MatchesState, req: JoinRequest, now: string, lookupFails: bool, insertFails: bool): (r: (MatchesState, JoinResponse))
    ensures !HasFields(req) ==> r == (t, MissingFields)
    ensures r.1.Existing? || r.1.JoinFailed? || r.1.MissingFields? ==> r.0 == t
    ensures r.1.Existing? ==> !lookupFails
  {
    if !HasFields(req) then (t, MissingFields)
    else
      var c, u := req.challengeId.value, req.userId.value;
      var existingMatch := if lookupFails then None else Single(t.rows, c, u);
      match existingMatch
      case Some(existing) => (t, Existing(existing.id))
      case None =>
        if insertFails then (t, JoinFailed)
        else
          var row := Placeholder(c, u, req.deckId.value, req.maxScore, now).(id := t.nextId);
          (MatchesState(t.rows + [row], t.nextId + 1), Joined(t.nextId))
  }

  // ---------------------------------------------------------------------------
  // The table invariant

  /** Ids are distinct and below the next id, and no pair has two rows. */
  predicate Valid(t: MatchesState)
  {
    && (forall i :: 0 <= i < |t.rows| ==> t.rows[i].id < t.nextId)
    && (forall i, j :: 0 <= i < j < |t.rows| ==> t.rows[i].id != t.rows[j].id)
    && (forall i, j :: 0 <= i < j < |t.rows| ==>
          t.rows[i].challengeId != t.rows[j].challengeId || t.rows[i].userId != t.rows[j].userId)
  }

  lemma {:induction false} MatchingAtMostOne(rows: seq<MatchRow>, c: string, u: string)
    requires forall i, j :: 0 <= i < j < |rows| ==> rows[i].challengeId != rows[j].challengeId || rows[i].userId != rows[j].userId
    ensures |Matching(rows, c, u)| <= 1
    decreases |rows|
  {
    if rows != [] {
      var tail := rows[1..];
      assert forall i, j :: 0 <= i < j < |tail| ==> tail[i].challengeId != tail[j].challengeId || tail[i].userId != tail[j].userId by {
        forall i, j | 0 <= i < j < |tail|
          ensures tail[i].challengeId != tail[j].challengeId || tail[i].userId != tail[j].userId
        {
          assert tail[i] == rows[i + 1] && tail[j] == rows[j + 1];
        }
      }
      MatchingAtMostOne(tail, c, u);
      if rows[0].challengeId == c && rows[0].userId == u {
        forall m | m in tail ensures m.challengeId != c || m.userId != u {
          var k :| 0 <= k < |tail| && tail[k] == m;
          assert rows[k + 1] == m;
        }
        NoRowNoMatch(tail, c, u);
      }
    }
  }

  lemma NoRowNoMatch(rows: seq<MatchRow>, c: string, u: string)
    requires forall m :: m in rows ==> m.challengeId != c || m.userId != u
    ensures Matching(rows, c, u) == []
  {
    if Matching(rows, c, u) != [] {
      assert Matching(rows, c, u)[0] in Matching(rows, c, u);
    }
  }

  /** In a valid table a pair has a row exactly when the lookup finds one. */
  lemma LookupFindsEveryRow(t: MatchesState, c: string, u: string)
    requires Valid(t)
    ensures Single(t.rows, c, u).None? <==> forall i :: 0 <= i < |t.rows| ==> t.rows[i].challengeId != c || t.rows[i].userId != u
  {
    MatchingAtMostOne(t.rows, c, u);
    if Single(t.rows, c, u).None? {
      assert |Matching(t.rows, c, u)| == 0;
      forall i | 0 <= i < |t.rows| ensures t.rows[i].challengeId != c || t.rows[i].userId != u {
        assert t.rows[i] in t.rows;
      }
    }
  }

  // ---------------------------------------------------------------------------
  // What the route promises

  lemma MissingFieldsRejected(t: MatchesState, req: JoinRequest, now: string, lookupFails: bool, insertFails: bool)
    requires !HasFields(req)
    ensures Join(t, req, now, lookupFails, insertFails) == (t, MissingFields)
    ensures HttpStatus(MissingFields) == 400
  {
  }

  /** An existing match, found by a working lookup, is reported with its id and leaves
      the table (and its score) as it was. */
  lemma ExistingMatchUnchanged(t: MatchesState, req: JoinRequest, now: string, insertFails: bool)
    requires HasFields(req)
    requires Single(t.rows, req.challengeId.value, req.userId.value).Some?
    ensures Join(t, req, now, false, insertFails) == (t, Existing(Single(t.rows, req.challengeId.value, req.userId.value).value.id))
  {
  }

  /** When the lookup yields nothing (no single row, or the lookup failed), exactly one
      row is appended: that challenge, user and deck, score 0, `maxScore || 0`, the
      current time and the next id, which is returned with the status `new`. */
  lemma NewMatchInsertsPlaceholder(t: MatchesState, req: JoinRequest, now: string, lookupFails: bool)
    requires HasFields(req)
    requires lookupFails || Single(t.rows, req.challengeId.value, req.userId.value).None?
    ensures var (t', resp) := Join(t, req, now, lookupFails, false);
      && resp == Joined(t.nextId) && HttpStatus(resp) == 200
      && |t'.rows| == |t.rows| + 1 && t'.rows[..|t.rows|] == t.rows
      && t'.rows[|t.rows|] == MatchRow(t.nextId, req.challengeId.value, req.userId.value, req.deckId.value,
                                       0, MaxScoreOrZero(req.maxScore), now)
  {
    var (t', resp) := Join(t, req, now, lookupFails, false);
    assert t'.rows[..|t.rows|] == t.rows;
  }

  lemma InsertFailureAnswers500(t: MatchesState, req: JoinRequest, now: string, lookupFails: bool)
    requires HasFields(req)
    requires lookupFails || Single(t.rows, req.challengeId.value, req.userId.value).None?
    ensures Join(t, req, now, lookupFails, true) == (t, JoinFailed)
    ensures HttpStatus(JoinFailed) == 500
  {
  }

  /** No call changes a row already in the table: in particular a score is never reset. */
  lemma JoinKeepsExistingRows(t: MatchesState, req: JoinRequest, now: string, lookupFails: bool, insertFails: bool)
    ensures var t' := Join(t, req, now, lookupFails, insertFails).0;
      |t'.rows| >= |t.rows| && t'.rows[..|t.rows|] == t.rows
  {
    var t' := Join(t, req, now, lookupFails, insertFails).0;
    assert t'.rows[..|t.rows|] == t.rows;
  }

  /** The table invariant survives a call exactly unless a failed lookup let a second
      row in for a pair that already had one. */
  lemma JoinPreservesValid(t: MatchesState, req: JoinRequest, now: string, lookupFails: bool, insertFails: bool)
    requires Valid(t)
    ensures Valid(Join(t, req, now, lookupFails, insertFails).0) <==>
      !(HasFields(req) && lookupFails && !insertFails && Matching(t.rows, req.challengeId.value, req.userId.value) != [])
  {
    if HasFields(req) && !insertFails {
      var c, u := req.challengeId.value, req.userId.value;
      var t' := Join(t, req, now, lookupFails, insertFails).0;
      if !lookupFails {
        LookupFindsEveryRow(t, c, u);
      } else if Matching(t.rows, c, u) != [] {
        DuplicateBreaksValid(t, req, now);
      } else {
        forall i | 0 <= i < |t.rows| ensures t.rows[i].challengeId != c || t.rows[i].userId != u {
          assert t.rows[i] in t.rows;
        }
      }
    }
  }

  /** A failed lookup on a pair that already has a row appends a second one. */
  lemma DuplicateBreaksValid(t: MatchesState, req: JoinRequest, now: string)
    requires HasFields(req) && Matching(t.rows, req.challengeId.value, req.userId.value) != []
    ensures !Valid(Join(t, req, now, true, false).0)
  {
    var c, u := req.challengeId.value, req.userId.value;
    var t' := Join(t, req, now, true, false).0;
    var m := Matching(t.rows, c, u)[0];
    assert m in Matching(t.rows, c, u);
    var k :| 0 <= k < |t.rows| && t.rows[k] == m;
    assert t'.rows[k] == m && t'.rows[|t.rows|].challengeId == c && t'.rows[|t.rows|].userId == u;
  }

  /** The route's failure mode: a failed lookup for a caller who already joined inserts a
      second placeholder, and the table then holds two rows for the pair. */
  lemma FailedLookupAddsSecondRow(t: MatchesState, req: JoinRequest, now: string)
    requires Valid(t) && HasFields(req)
    requires Single(t.rows, req.challengeId.value, req.userId.value).Some?
    ensures var (t', resp) := Join(t, req, now, true, false);
      && resp == Joined(t.nextId)
      && |Matching(t'.rows, req.challengeId.value, req.userId.value)| == 2
      && !Valid(t')
  {
    var c, u := req.challengeId.value, req.userId.value;
    var row := Placeholder(c, u, req.deckId.value, req.maxScore, now).(id := t.nextId);
    MatchingAppend(t.rows, row, c, u);
    DuplicateBreaksValid(t, req, now);
  }

  /** Once a pair has two rows, `.single()` finds nothing whether or not it fails, so
      every later call whose insert succeeds adds yet another row. */
  lemma DuplicatedPairKeepsGrowing(t: MatchesState, req: JoinRequest, now: string, lookupFails: bool)
    requires HasFields(req)
    requires |Matching(t.rows, req.challengeId.value, req.userId.value)| >= 2
    ensures var (t', resp) := Join(t, req, now, lookupFails, false);
      && resp == Joined(t.nextId)
      && |Matching(t'.rows, req.challengeId.value, req.userId.value)| ==
         |Matching(t.rows, req.challengeId.value, req.userId.value)| + 1
  {
    var c, u := req.challengeId.value, req.userId.value;
    var row := Placeholder(c, u, req.deckId.value, req.maxScore, now).(id := t.nextId);
    MatchingAppend(t.rows, row, c, u);
  }

  // ---------------------------------------------------------------------------
  // Sequential idempotence

  /** One attempt of the same caller at the same challenge. */
  datatype Attempt = Attempt(deckId: string, maxScore: Option<int>, now: string, lookupFails: bool, insertFails: bool)

  function JoinAll(t: MatchesState, challengeId: string, userId: string, attempts: seq<Attempt>): MatchesState
    decreases |attempts|
  {
    if attempts == [] then t
    else
      var a := attempts[0];
      var req := JoinRequest(Some(challengeId), Some(userId), Some(a.deckId), a.maxScore);
      JoinAll(Join(t, req, a.now, a.lookupFails, a.insertFails).0, challengeId, userId, attempts[1..])
  }

  /** With working lookups, once the pair has its row later attempts change nothing. */
  lemma {:induction false} JoinedStaysPut(t: MatchesState, challengeId: string, userId: string, attempts: seq<Attempt>)
    requires challengeId != "" && userId != ""
    requires Single(t.rows, challengeId, userId).Some?
    requires forall i :: 0 <= i < |attempts| ==> !attempts[i].lookupFails
    ensures JoinAll(t, challengeId, userId, attempts) == t
    decreases |attempts|
  {
    if attempts != [] {
      assert !attempts[0].lookupFails;
      JoinedStaysPut(t, challengeId, userId, attempts[1..]);
    }
  }

  /** An attempt that can insert: a non-empty deck and an insert that succeeds. */
  predicate Inserts(a: Attempt)
  {
    a.deckId != "" && !a.insertFails
  }

  /** With working lookups, starting from no row for the pair, any sequence of attempts
      with the same pair leaves exactly one row for it when some attempt had a deck and a
      successful insert, and none otherwise. */
  lemma {:induction false} RepeatedJoinsLeaveOneRow(t: MatchesState, challengeId: string, userId: string, attempts: seq<Attempt>)
    requires challengeId != "" && userId != ""
    requires forall i :: 0 <= i < |attempts| ==> !attempts[i].lookupFails
    requires Matching(t.rows, challengeId, userId) == []
    ensures |Matching(JoinAll(t, challengeId, userId, attempts).rows, challengeId, userId)| ==
      if exists i :: 0 <= i < |attempts| && Inserts(attempts[i]) then 1 else 0
    decreases |attempts|
  {
    if attempts != [] {
      var a := attempts[0];
      var rest := attempts[1..];
      assert forall i :: 0 <= i < |rest| ==> rest[i] == attempts[i + 1];
      if !Inserts(a) {
        var req := JoinRequest(Some(challengeId), Some(userId), Some(a.deckId), a.maxScore);
        assert !a.lookupFails;
        assert Join(t, req, a.now, a.lookupFails, a.insertFails).0 == t;
        RepeatedJoinsLeaveOneRow(t, challengeId, userId, rest);
        InsertsLater(attempts);
      } else {
        FirstInsertLeavesOneRow(t, challengeId, userId, attempts);
      }
    }
  }

  lemma InsertsLater(attempts: seq<Attempt>)
    requires attempts != [] && !Inserts(attempts[0])
    ensures (exists i :: 0 <= i < |attempts| && Inserts(attempts[i])) <==>
            (exists i :: 0 <= i < |attempts[1..]| && Inserts(attempts[1..][i]))
  {
    var rest := attempts[1..];
    if exists i :: 0 <= i < |attempts| && Inserts(attempts[i]) {
      var i :| 0 <= i < |attempts| && Inserts(attempts[i]);
      assert i != 0;
      assert Inserts(rest[i - 1]);
    }
    if exists i :: 0 <= i < |rest| && Inserts(rest[i]) {
      var i :| 0 <= i < |rest| && Inserts(rest[i]);
      assert Inserts(attempts[i + 1]);
    }
  }

  /** The first attempt inserts the pair's row; the rest then change nothing. */
  lemma FirstInsertLeavesOneRow(t: MatchesState, challengeId: string, userId: string, attempts: seq<Attempt>)
    requires challengeId != "" && userId != ""
    requires forall i :: 0 <= i < |attempts| ==> !attempts[i].lookupFails
    requires Matching(t.rows, challengeId, userId) == []
    requires attempts != [] && Inserts(attempts[0])
    ensures |Matching(JoinAll(t, challengeId, userId, attempts).rows, challengeId, userId)| == 1
  {
    var a := attempts[0];
    var req := JoinRequest(Some(challengeId), Some(userId), Some(a.deckId), a.maxScore);
    var t1 := Join(t, req, a.now, a.lookupFails, a.insertFails).0;
    var rest := attempts[1..];
    assert !a.lookupFails;
    var row := Placeholder(challengeId, userId, a.deckId, a.maxScore, a.now).(id := t.nextId);
    assert t1.rows == t.rows + [row];
    MatchingAppend(t.rows, row, challengeId, userId);
    assert Matching(t1.rows, challengeId, userId) == [row];
    assert forall i :: 0 <= i < |rest| ==> rest[i] == attempts[i + 1];
    JoinedStaysPut(t1, challengeId, userId, rest);
    assert JoinAll(t, challengeId, userId, attempts) == JoinAll(t1, challengeId, userId, rest);
  }

  lemma {:induction false} MatchingAppend(rows: seq<MatchRow>, row: MatchRow, c: string, u: string)
    ensures Matching(rows + [row], c, u) ==
      Matching(rows, c, u) + (if row.challengeId == c && row.userId == u then [row] else [])
    decreases |rows|
  {
    if rows == [] {
      assert [row][1..] == [];
    } else {
      assert (rows + [row])[1..] == rows[1..] + [row];
      MatchingAppend(rows[1..], row, c, u);
    }
  }

  /** Joining twice from no row, the second time with a working lookup: the second call
      reports the first call's row, and the table holds one row for the pair. */
  lemma JoinTwice(t: MatchesState, req: JoinRequest, now1: string, now2: string, lookupFails1: bool, insertFails2: bool)
    requires HasFields(req)
    requires Matching(t.rows, req.challengeId.value, req.userId.value) == []
    ensures var (t1, r1) := Join(t, req, now1, lookupFails1, false);
      var (t2, r2) := Join(t1, req, now2, false, insertFails2);
      && r1 == Joined(t.nextId) && r2 == Existing(t.nextId) && t2 == t1
      && |Matching(t2.rows, req.challengeId.value, req.userId.value)| == 1
  {
    var c, u := req.challengeId.value, req.userId.value;
    var (t1, r1) := Join(t, req, now1, lookupFails1, false);
    var row := Placeholder(c, u, req.deckId.value, req.maxScore, now1).(id := t.nextId);
    assert t1.rows == t.rows + [row];
    MatchingAppend(t.rows, row, c, u);
  }

  // ---------------------------------------------------------------------------
  // The route, against the table

  class MatchesTable {
    var rows: seq<MatchRow>
    var nextId: nat

    function State(): MatchesState
      reads this
    {
      MatchesState(rows, nextId)
    }

    constructor (initial: MatchesState)
      ensures State() == initial
    {
      rows := initial.rows;
      nextId := initial.nextId;
    }

    /** `select('id').eq('challenge_id', c).eq('user_id', u).single()`, keeping only
        `data`: a failed query gives no row. */
    method SelectSingle(challengeId: string, userId: string, fails: bool) returns (row: Option<MatchRow>)
      ensures fails ==> row.None?
      ensures !fails ==> (row.Some? <==> |Matching(rows, challengeId, userId)| == 1)
      ensures row.Some? ==> row.value in rows && row.value.challengeId == challengeId && row.value.userId == userId
    {
      if fails {
        row := None;
      } else {
        row := Single(rows, challengeId, userId);
      }
    }

    /** `insert({...}).select().single()`: the inserted row with its new id, or an error. */
    method Insert(row: MatchRow, fails: bool) returns (inserted: Option<MatchRow>)
      modifies this
      ensures inserted == if fails then None else Some(row.(id := old(nextId)))
      ensures rows == if fails then old(rows) else old(rows) + [row.(id := old(nextId))]
      ensures nextId == if fails then old(nextId) else old(nextId) + 1
    {
      if fails {
        inserted := None;
      } else {
        inserted := Some(row.(id := nextId));
        rows := rows + [inserted.value];
        nextId := nextId + 1;
      }
    }
  }

  /** The route: `POST /api/challenge/join`. */
  method Post(table: MatchesTable, req: JoinRequest, now: string, lookupFails: bool, insertFails: bool) returns (resp: JoinResponse)
    modifies table
    ensures (table.State(), resp) == Join(old(table.State()), req, now, lookupFails, insertFails)
  {
    if !Truthy(req.challengeId) || !Truthy(req.userId) || !Truthy(req.deckId) {
      return MissingFields;
    }
    // 1. An existing match is never reset (the lookup's error is not read).
    var existingMatch := table.SelectSingle(req.challengeId.value, req.userId.value, lookupFails);
    if existingMatch.Some? {
      return Existing(existingMatch.value.id);
    }
    // 2. A zero-score placeholder.
    var row := MatchRow(0, req.challengeId.value, req.userId.value, req.deckId.value, 0, MaxScoreOrZero(req.maxScore), now);
    var data := table.Insert(row, insertFails);
    if data.None? {
      return JoinFailed;
    }
    resp := Joined(data.value.id);
  }
}
