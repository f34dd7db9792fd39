/**
 The session manager's two-way index: sessions by id, and the ids of each email in
 order of creation. Session ids are fresh random tokens; expiry is decided by a
 predicate that stands for the clock and the invalidation flag.
 */
module Sessions {
  import opened Prelude

  const MAX_SESSIONS_PER_USER: nat := 5

  datatype Session = Session(email: string, body: string)

  datatype Registry = Registry(sessions: map<string, Session>, lists: map<string, seq<string>>)

  // ---------------------------------------------------------------------------
  // The invariant
  // ---------------------------------------------------------------------------

  function ListOf(r: Registry, email: string): seq<string> {
    if email in r.lists then r.lists[email] else []
  }

  ghost predicate BelongTo(sessions: map<string, Session>, ids: seq<string>, email: string) {
    forall i :: 0 <= i < |ids| && ids[i] in sessions ==> sessions[ids[i]].email == email
  }

  /** Only the oldest id may name a session that is gone, and six ids are five sessions. */
  ghost predicate OneStale(sessions: map<string, Session>, ids: seq<string>) {
    && |ids| <= MAX_SESSIONS_PER_USER + 1
    && (|ids| == MAX_SESSIONS_PER_USER + 1 ==> ids[0] !in sessions)
    && forall i :: 0 < i < |ids| ==> ids[i] in sessions
  }

  ghost predicate GoodList(sessions: map<string, Session>, ids: seq<string>, email: string) {
    Distinct(ids) && BelongTo(sessions, ids, email) && OneStale(sessions, ids)
  }

  ghost predicate Disjoint(r: Registry) {
    forall e, f, i :: e in r.lists && f in r.lists && e != f && 0 <= i < |r.lists[e]| ==> r.lists[e][i] !in r.lists[f]
  }

  ghost predicate Good(r: Registry) {
    && (forall id :: id in r.sessions ==> id in ListOf(r, r.sessions[id].email))
    && (forall e :: e in r.lists ==> GoodList(r.sessions, r.lists[e], e))
    && Disjoint(r)
  }

  ghost predicate Fresh(r: Registry, id: string) {
    id !in r.sessions && forall e :: e in r.lists ==> id !in r.lists[e]
  }

  function StoredFor(r: Registry, email: string): set<string> {
    set id | id in r.sessions && r.sessions[id].email == email
  }

  /** In a good registry each stored session is listed exactly once, under its own email and no other. */
  lemma ListedOnce(r: Registry, id: string)
    requires Good(r) && id in r.sessions
    ensures var ids := ListOf(r, r.sessions[id].email);
            exists i :: 0 <= i < |ids| && ids[i] == id && forall j :: 0 <= j < |ids| && ids[j] == id ==> j == i
    ensures forall e :: e in r.lists && e != r.sessions[id].email ==> id !in r.lists[e]
  {
    var ids := ListOf(r, r.sessions[id].email);
    var i :| 0 <= i < |ids| && ids[i] == id;
    assert Distinct(ids);
  }

  /** At most five sessions are stored for any email, and its list has at most six ids. */
  lemma AtMostFive(r: Registry, email: string)
    requires Good(r)
    ensures |StoredFor(r, email)| <= MAX_SESSIONS_PER_USER && |ListOf(r, email)| <= MAX_SESSIONS_PER_USER + 1
  {
    var ids := ListOf(r, email);
    var live := if |ids| == MAX_SESSIONS_PER_USER + 1 then ids[1..] else ids;
    forall id | id in StoredFor(r, email) ensures id in live {
      assert id in ids;
      assert |ids| == MAX_SESSIONS_PER_USER + 1 ==> ids == [ids[0]] + ids[1..];
    }
    ElementsAreFew(live, StoredFor(r, email));
  }

  // ---------------------------------------------------------------------------
  // Operations
  // ---------------------------------------------------------------------------

  /** The ids whose session is stored and not expired, in order. */
  function Live(sessions: map<string, Session>, ids: seq<string>, expired: Session -> bool): (r: seq<string>) {
    if ids == [] then []
    else if ids[0] in sessions && !expired(sessions[ids[0]]) then [ids[0]] + Live(sessions, ids[1..], expired)
    else Live(sessions, ids[1..], expired)
  }

  function Elements(ids: seq<string>): set<string> {
    set id | id in ids
  }

  function Cleaned(r: Registry, email: string, expired: Session -> bool): Registry {
    if email !in r.lists then r
    else
      var live := Live(r.sessions, r.lists[email], expired);
      Registry(r.sessions - (Elements(r.lists[email]) - Elements(live)), r.lists[email := live])
  }

  /** Makes room by forgetting the oldest session, whose id stays in the list. */
  function Evicted(r: Registry, email: string): Registry {
    var ids := ListOf(r, email);
    if |ids| >= MAX_SESSIONS_PER_USER then r.(sessions := r.sessions - {ids[0]}) else r
  }

  function Added(r: Registry, id: string, s: Session): Registry {
    Registry(r.sessions[id := s], r.lists[s.email := ListOf(r, s.email) + [id]])
  }

  function Created(r: Registry, id: string, s: Session, expired: Session -> bool): Registry {
    Added(Evicted(Cleaned(r, s.email, expired), s.email), id, s)
  }

  function Dropped(ids: seq<string>, id: string): seq<string> {
    if ids == [] then [] else if ids[0] == id then Dropped(ids[1..], id) else [ids[0]] + Dropped(ids[1..], id)
  }

  function Invalidated(r: Registry, id: string): Registry {
    if id !in r.sessions then r
    else
      var email := r.sessions[id].email;
      Registry(r.sessions - {id},
               if email in r.lists then r.lists[email := Dropped(r.lists[email], id)] else r.lists)
  }

  function InvalidatedAll(r: Registry, email: string): Registry {
    if email !in r.lists then r
    else Registry(r.sessions - Elements(r.lists[email]), r.lists - {email})
  }

  // ---------------------------------------------------------------------------
  // Preservation
  // ---------------------------------------------------------------------------

  lemma {:induction false} LiveIsDistinct(sessions: map<string, Session>, ids: seq<string>, expired: Session -> bool)
    requires Distinct(ids)
    ensures var live := Live(sessions, ids, expired);
            && Distinct(live) && |live| <= |ids|
            && (forall id :: id in live <==> id in ids && id in sessions && !expired(sessions[id]))
  {
    if ids != [] {
      LiveIsDistinct(sessions, ids[1..], expired);
      assert ids == [ids[0]] + ids[1..];
    }
  }

  /** The live ids keep the order of creation. */
  lemma {:induction false} LiveKeepsOrder(sessions: map<string, Session>, ids: seq<string>, expired: Session -> bool,
                                          i: nat, j: nat)
    returns (p: nat, q: nat)
    requires i < j < |Live(sessions, ids, expired)|
    ensures p < q < |ids| && ids[p] == Live(sessions, ids, expired)[i] && ids[q] == Live(sessions, ids, expired)[j]
  {
    var live, rest := Live(sessions, ids, expired), ids[1..];
    var more := Live(sessions, rest, expired);
    if live == more {
      p, q := LiveKeepsOrder(sessions, rest, expired, i, j);
      p, q := p + 1, q + 1;
    } else if i > 0 {
      p, q := LiveKeepsOrder(sessions, rest, expired, i - 1, j - 1);
      p, q := p + 1, q + 1;
    } else {
      q := LiveIsListed(sessions, rest, expired, j - 1);
      p, q := 0, q + 1;
    }
  }

  lemma {:induction false} LiveIsListed(sessions: map<string, Session>, ids: seq<string>, expired: Session -> bool,
                                        j: nat)
    returns (q: nat)
    requires j < |Live(sessions, ids, expired)|
    ensures q < |ids| && ids[q] == Live(sessions, ids, expired)[j]
  {
    var live, rest := Live(sessions, ids, expired), ids[1..];
    var more := Live(sessions, rest, expired);
    if live == more {
      q := LiveIsListed(sessions, rest, expired, j);
      q := q + 1;
    } else if j > 0 {
      q := LiveIsListed(sessions, rest, expired, j - 1);
      q := q + 1;
    } else {
      q := 0;
    }
  }

  lemma CleanedIsGood(r: Registry, email: string, expired: Session -> bool)
    requires Good(r)
    ensures Good(Cleaned(r, email, expired))
    ensures var ids := ListOf(Cleaned(r, email, expired), email);
            && |ids| <= MAX_SESSIONS_PER_USER
            && forall i :: 0 <= i < |ids| ==> ids[i] in Cleaned(r, email, expired).sessions
  {
    if email in r.lists {
      var ids := r.lists[email];
      var c := Cleaned(r, email, expired);
      LiveIsDistinct(r.sessions, ids, expired);
      LiveIsShort(r.sessions, ids, expired);
      forall e | e in c.lists ensures GoodList(c.sessions, c.lists[e], e) {
        if e != email {
          assert GoodList(r.sessions, r.lists[e], e);
        }
      }
    }
  }

  lemma LiveIsShort(sessions: map<string, Session>, ids: seq<string>, expired: Session -> bool)
    requires Distinct(ids) && OneStale(sessions, ids)
    ensures |Live(sessions, ids, expired)| <= MAX_SESSIONS_PER_USER
  {
    if |ids| == MAX_SESSIONS_PER_USER + 1 {
      LiveIsDistinct(sessions, ids[1..], expired);
    } else {
      LiveIsDistinct(sessions, ids, expired);
    }
  }

  lemma CreatedIsGood(r: Registry, id: string, s: Session, expired: Session -> bool)
    requires Good(r) && Fresh(r, id)
    ensures Good(Created(r, id, s, expired))
  {
    CleanedIsGood(r, s.email, expired);
    var cleaned := Cleaned(r, s.email, expired);
    LiveSubset(r, s.email, expired, id);
    AddedIsGood(cleaned, id, s);
  }

  /**
   Creating stores the new session, forgets exactly the expired ones of its email (and,
   at the limit, the oldest live one), and touches no other email.
   */
  lemma CreatedExactly(r: Registry, id: string, s: Session, expired: Session -> bool)
    requires Good(r) && Fresh(r, id)
    ensures var after := Created(r, id, s, expired).sessions;
            var live := Live(r.sessions, ListOf(r, s.email), expired);
            && id in after && after[id] == s
            && forall x :: x != id ==>
                 (x in after <==>
                    && x in r.sessions
                    && (r.sessions[x].email == s.email ==> !expired(r.sessions[x]))
                    && !(|live| >= MAX_SESSIONS_PER_USER && x == live[0]))
                 && (x in after ==> after[x] == r.sessions[x])
  {
    var ids := ListOf(r, s.email);
    assert Distinct(ids);
    LiveIsDistinct(r.sessions, ids, expired);
    var live := Live(r.sessions, ids, expired);
    forall x | x in r.sessions
      ensures x in Elements(ids) - Elements(live) <==> r.sessions[x].email == s.email && expired(r.sessions[x])
    {
      assert x in ListOf(r, r.sessions[x].email);
      if x in ids && s.email in r.lists {
        assert GoodList(r.sessions, ids, s.email);
      }
    }
  }

  /** The list of the email is its live ids with the new one behind; every other list is as before. */
  lemma CreatedLists(r: Registry, id: string, s: Session, expired: Session -> bool)
    ensures Created(r, id, s, expired).lists
            == r.lists[s.email := Live(r.sessions, ListOf(r, s.email), expired) + [id]]
  {
    var live := Live(r.sessions, ListOf(r, s.email), expired);
    assert ListOf(Cleaned(r, s.email, expired), s.email) == live;
  }

  lemma LiveSubset(r: Registry, email: string, expired: Session -> bool, id: string)
    requires Good(r) && Fresh(r, id)
    ensures Fresh(Cleaned(r, email, expired), id)
  {
    if email in r.lists {
      LiveIsDistinct(r.sessions, r.lists[email], expired);
    }
  }

  /** The list of an email after one of its ids was forgotten and a fresh one added. */
  lemma GrownList(sessions: map<string, Session>, ids: seq<string>, id: string, s: Session)
    requires GoodList(sessions, ids, s.email) && id !in ids && |ids| <= MAX_SESSIONS_PER_USER
    requires forall i :: 0 <= i < |ids| ==> ids[i] in sessions
    ensures GoodList((if |ids| >= MAX_SESSIONS_PER_USER then sessions - {ids[0]} else sessions)[id := s],
                     ids + [id], s.email)
  {
  }

  /** A list that shares no id with what changed stays as it was. */
  lemma OtherList(before: map<string, Session>, after: map<string, Session>, ids: seq<string>, email: string)
    requires GoodList(before, ids, email)
    requires forall i :: 0 <= i < |ids| ==>
      (ids[i] in after <==> ids[i] in before) && (ids[i] in before ==> after[ids[i]] == before[ids[i]])
    ensures GoodList(after, ids, email)
  {
  }

  lemma AddedIsGood(r: Registry, id: string, s: Session)
    requires Good(r) && Fresh(r, id) && |ListOf(r, s.email)| <= MAX_SESSIONS_PER_USER
    requires forall i :: 0 <= i < |ListOf(r, s.email)| ==> ListOf(r, s.email)[i] in r.sessions
    ensures Good(Added(Evicted(r, s.email), id, s))
  {
    var ids := ListOf(r, s.email);
    var added := Added(Evicted(r, s.email), id, s);
    assert added.lists == r.lists[s.email := ids + [id]];
    forall e | e in added.lists ensures GoodList(added.sessions, added.lists[e], e) {
      if e == s.email {
        GrownList(r.sessions, ids, id, s);
      } else {
        assert forall i :: 0 <= i < |r.lists[e]| ==> r.lists[e][i] !in ids && r.lists[e][i] != id;
        OtherList(r.sessions, added.sessions, r.lists[e], e);
      }
    }
    AddedIsListed(r, id, s);
    AddedIsDisjoint(r, id, s);
  }

  lemma AddedIsListed(r: Registry, id: string, s: Session)
    requires forall x :: x in r.sessions ==> x in ListOf(r, r.sessions[x].email)
    ensures var added := Added(Evicted(r, s.email), id, s);
            forall x :: x in added.sessions ==> x in ListOf(added, added.sessions[x].email)
  {
    var added := Added(Evicted(r, s.email), id, s);
    forall x | x in added.sessions ensures x in ListOf(added, added.sessions[x].email) {
      if x == id {
        assert added.lists[s.email][|ListOf(r, s.email)|] == id;
      } else {
        assert x in ListOf(r, r.sessions[x].email);
      }
    }
  }

  lemma AddedIsDisjoint(r: Registry, id: string, s: Session)
    requires Disjoint(r) && Fresh(r, id)
    ensures Disjoint(Added(Evicted(r, s.email), id, s))
  {
  }

  lemma {:induction false} DroppedIsDistinct(ids: seq<string>, id: string)
    requires Distinct(ids)
    ensures Distinct(Dropped(ids, id)) && |Dropped(ids, id)| <= |ids|
    ensures forall x :: x in Dropped(ids, id) <==> x in ids && x != id
    ensures id in ids ==> |Dropped(ids, id)| < |ids|
    ensures ids != [] && ids[0] != id ==> Dropped(ids, id) != [] && Dropped(ids, id)[0] == ids[0]
  {
    if ids != [] {
      var rest := ids[1..];
      DroppedIsDistinct(rest, id);
      assert ids == [ids[0]] + rest;
      assert forall j :: 0 <= j < |Dropped(rest, id)| ==> Dropped(rest, id)[j] in rest;
      assert ids[0] !in rest;
    }
  }

  lemma DroppedIsGood(sessions: map<string, Session>, ids: seq<string>, id: string, email: string)
    requires GoodList(sessions, ids, email) && id in ids && id in sessions
    ensures GoodList(sessions - {id}, Dropped(ids, id), email)
  {
    var rest := Dropped(ids, id);
    DroppedIsDistinct(ids, id);
    forall i | 0 < i < |rest| ensures rest[i] in sessions - {id} {
      assert rest[i] in ids && rest[i] != rest[0];
      if ids[0] != id {
        assert rest[i] != ids[0];
      }
    }
    forall i | 0 <= i < |rest| && rest[i] in sessions - {id} ensures sessions[rest[i]].email == email {
      assert rest[i] in ids;
    }
  }

  lemma InvalidatedIsGood(r: Registry, id: string)
    requires Good(r)
    ensures Good(Invalidated(r, id))
  {
    if id in r.sessions {
      var email := r.sessions[id].email;
      var next := Invalidated(r, id);
      DroppedIsDistinct(r.lists[email], id);
      DroppedIsGood(r.sessions, r.lists[email], id, email);
      forall e | e in next.lists ensures GoodList(next.sessions, next.lists[e], e) {
        if e != email {
          assert GoodList(r.sessions, r.lists[e], e) && id !in r.lists[e];
        }
      }
    }
  }

  lemma InvalidatedAllIsGood(r: Registry, email: string)
    requires Good(r)
    ensures Good(InvalidatedAll(r, email)) && StoredFor(InvalidatedAll(r, email), email) == {}
  {
    if email in r.lists {
      var next := InvalidatedAll(r, email);
      forall e | e in next.lists ensures GoodList(next.sessions, next.lists[e], e) {
        assert GoodList(r.sessions, r.lists[e], e);
        assert forall i :: 0 <= i < |r.lists[e]| ==> r.lists[e][i] !in r.lists[email];
      }
    }
  }

  lemma {:induction false} DroppedSplits(ids: seq<string>, id: string) returns (k: nat)
    requires Distinct(ids) && id in ids
    ensures k < |ids| && ids[k] == id && Dropped(ids, id) == ids[..k] + ids[k + 1..]
  {
    if ids[0] == id {
      k := 0;
      NothingDropped(ids[1..], id);
    } else {
      var first, rest := ids[0], ids[1..];
      assert ids == [first] + rest;
      var j := DroppedSplits(rest, id);
      k := j + 1;
      assert ids[..k] == [first] + rest[..j] && ids[k + 1..] == rest[j + 1..];
      Associate([first], rest[..j], rest[j + 1..]);
    }
  }

  lemma {:induction false} NothingDropped(ids: seq<string>, id: string)
    requires id !in ids
    ensures Dropped(ids, id) == ids
  {
    if ids != [] {
      NothingDropped(ids[1..], id);
    }
  }

  /** The ids of one email after one of them went, the others in order; every other list is as before. */
  ghost predicate OneLess(before: map<string, seq<string>>, after: map<string, seq<string>>, email: string, id: string)
  {
    && email in before
    && exists k :: 0 <= k < |before[email]| && before[email][k] == id
         && after == before[email := before[email][..k] + before[email][k + 1..]]
  }

  /** Invalidating forgets that session and its id, and nothing else; an unknown id changes nothing. */
  lemma InvalidatedExactly(r: Registry, id: string)
    requires Good(r)
    ensures var after := Invalidated(r, id);
            && after.sessions.Keys == r.sessions.Keys - {id}
            && (forall x :: x in after.sessions ==> after.sessions[x] == r.sessions[x])
            && (id !in r.sessions ==> after == r)
            && (id in r.sessions ==> OneLess(r.lists, after.lists, r.sessions[id].email, id))
  {
    if id in r.sessions {
      var email := r.sessions[id].email;
      assert id in ListOf(r, email);
      assert GoodList(r.sessions, r.lists[email], email);
      var k := DroppedSplits(r.lists[email], id);
    }
  }

  /** Invalidating all forgets the sessions and the list of that email, and those of no other. */
  lemma InvalidatedAllExactly(r: Registry, email: string)
    requires Good(r)
    ensures var after := InvalidatedAll(r, email);
            && (forall x :: x in after.sessions <==> x in r.sessions && r.sessions[x].email != email)
            && (forall x :: x in after.sessions ==> after.sessions[x] == r.sessions[x])
            && after.lists == r.lists - {email}
  {
    forall x | x in r.sessions ensures x in ListOf(r, email) <==> r.sessions[x].email == email {
      assert x in ListOf(r, r.sessions[x].email);
      if email in r.lists && x in r.lists[email] {
        assert GoodList(r.sessions, r.lists[email], email);
      }
    }
  }

  // ---------------------------------------------------------------------------
  // The manager
  // ---------------------------------------------------------------------------

  function Shown(sessions: map<string, Session>, id: string, expired: Session -> bool): seq<string> {
    if id in sessions && !expired(sessions[id]) then [id] else []
  }

  lemma LiveSnoc(sessions: map<string, Session>, ids: seq<string>, id: string, expired: Session -> bool)
    ensures Live(sessions, ids + [id], expired) == Live(sessions, ids, expired) + Shown(sessions, id, expired)
  {
    if ids == [] {
      assert [] + [id] == [id] && [id][1..] == [];
    } else {
      LiveSnoc(sessions, ids[1..], id, expired);
      assert (ids + [id])[1..] == ids[1..] + [id];
    }
  }

  /** The cleanup loop before index `i`. */
  ghost predicate Keeping(sessions: map<string, Session>, ids: seq<string>, expired: Session -> bool, i: nat,
                          kept: seq<string>, rest: map<string, Session>)
  {
    && i <= |ids| && kept == Live(sessions, ids[..i], expired)
    && rest == sessions - (Elements(ids[..i]) - Elements(kept))
  }

  lemma ElementsSnoc(ids: seq<string>, id: string)
    ensures Elements(ids + [id]) == Elements(ids) + {id}
  {
  }

  lemma KeepOne(sessions: map<string, Session>, ids: seq<string>, expired: Session -> bool, i: nat,
                kept: seq<string>, rest: map<string, Session>)
    requires i < |ids| && Distinct(ids) && Keeping(sessions, ids, expired, i, kept, rest)
    requires ids[i] in sessions && !expired(sessions[ids[i]])
    ensures Keeping(sessions, ids, expired, i + 1, kept + [ids[i]], rest)
  {
    assert ids[..i + 1] == ids[..i] + [ids[i]];
    LiveSnoc(sessions, ids[..i], ids[i], expired);
    ElementsSnoc(ids[..i], ids[i]);
    ElementsSnoc(kept, ids[i]);
    assert ids[i] !in Elements(ids[..i]);
    SubtractBoth(Elements(ids[..i]), Elements(kept), ids[i]);
  }

  lemma SubtractBoth(all: set<string>, kept: set<string>, id: string)
    requires id !in all
    ensures (all + {id}) - (kept + {id}) == all - kept
  {
  }

  lemma DropOne(sessions: map<string, Session>, ids: seq<string>, expired: Session -> bool, i: nat,
                kept: seq<string>, rest: map<string, Session>)
    requires i < |ids| && Distinct(ids) && Keeping(sessions, ids, expired, i, kept, rest)
    requires ids[i] !in sessions || expired(sessions[ids[i]])
    ensures Keeping(sessions, ids, expired, i + 1, kept, rest - {ids[i]})
  {
    assert ids[..i + 1] == ids[..i] + [ids[i]];
    LiveSnoc(sessions, ids[..i], ids[i], expired);
    ElementsSnoc(ids[..i], ids[i]);
    LiveIsDistinct(sessions, ids[..i], expired);
    assert ids[i] !in Elements(kept);
    assert (Elements(ids[..i]) + {ids[i]}) - Elements(kept) == (Elements(ids[..i]) - Elements(kept)) + {ids[i]};
  }

  class SessionManager {
    var sessions: map<string, Session>
    var lists: map<string, seq<string>>

    function State(): Registry
      reads this
    {
      Registry(sessions, lists)
    }

    ghost predicate Valid()
      reads this
    {
      Good(State())
    }

    constructor ()
      ensures Valid() && sessions == map[] && lists == map[]
    {
      sessions, lists := map[], map[];
    }

    /** Forgets the expired sessions of an email, and the ids of sessions that are gone. */
    method CleanupExpired(email: string, expired: Session -> bool)
      requires Distinct(ListOf(State(), email))
      modifies this
      ensures State() == Cleaned(old(State()), email, expired)
    {
      if email in lists {
        var kept, rest := KeepLive(sessions, lists[email], expired);
        sessions := rest;
        lists := lists[email := kept];
      }
    }

    method CreateSession(id: string, s: Session, expired: Session -> bool)
      requires Valid() && Fresh(State(), id)
      modifies this
      ensures Valid() && State() == Created(old(State()), id, s, expired)
    {
      CreatedIsGood(State(), id, s, expired);
      Create(id, s, expired);
    }

    method Create(id: string, s: Session, expired: Session -> bool)
      requires Distinct(ListOf(State(), s.email))
      modifies this
      ensures State() == Created(old(State()), id, s, expired)
    {
      CleanupExpired(s.email, expired);
      if s.email in lists && |lists[s.email]| >= MAX_SESSIONS_PER_USER {
        sessions := sessions - {lists[s.email][0]};
      }
      sessions := sessions[id := s];
      if s.email !in lists {
        lists := lists[s.email := []];
      }
      lists := lists[s.email := lists[s.email] + [id]];
    }

    method InvalidateSession(id: string) returns (ok: bool)
      requires Valid()
      modifies this
      ensures Valid() && State() == Invalidated(old(State()), id)
      ensures ok == (id in old(sessions)) && id !in sessions
    {
      InvalidatedIsGood(State(), id);
      ok := Invalidate(id);
    }

    method Invalidate(id: string) returns (ok: bool)
      modifies this
      ensures State() == Invalidated(old(State()), id)
      ensures ok == (id in old(sessions)) && id !in sessions
    {
      if id !in sessions {
        return false;
      }
      var email := sessions[id].email;
      if email in lists {
        lists := lists[email := Dropped(lists[email], id)];
      }
      sessions := sessions - {id};
      ok := true;
    }

    method InvalidateAll(email: string)
      requires Valid()
      modifies this
      ensures Valid() && State() == InvalidatedAll(old(State()), email)
      ensures StoredFor(State(), email) == {}
    {
      InvalidatedAllIsGood(State(), email);
      if email in lists {
        sessions := RemoveEach(sessions, lists[email]);
        lists := lists - {email};
      }
    }

    static method KeepLive(sessions: map<string, Session>, ids: seq<string>, expired: Session -> bool)
      returns (kept: seq<string>, rest: map<string, Session>)
      requires Distinct(ids)
      ensures kept == Live(sessions, ids, expired)
      ensures rest == sessions - (Elements(ids) - Elements(kept))
    {
      kept, rest := [], sessions;
      for i := 0 to |ids|
        invariant Keeping(sessions, ids, expired, i, kept, rest)
      {
        if ids[i] in sessions && !expired(sessions[ids[i]]) {
          KeepOne(sessions, ids, expired, i, kept, rest);
          kept := kept + [ids[i]];
        } else {
          DropOne(sessions, ids, expired, i, kept, rest);
          rest := rest - {ids[i]};
        }
      }
      assert ids[..|ids|] == ids;
    }

    static method RemoveEach(sessions: map<string, Session>, ids: seq<string>) returns (rest: map<string, Session>)
      ensures rest == sessions - Elements(ids)
    {
      rest := sessions;
      for i := 0 to |ids|
        invariant rest == sessions - Elements(ids[..i])
      {
        assert Elements(ids[..i + 1]) == Elements(ids[..i]) + {ids[i]};
        rest := rest - {ids[i]};
      }
      assert ids[..|ids|] == ids;
    }
  }
}
