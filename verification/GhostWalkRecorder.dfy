/**
 `GhostWalkRecorder` of `phios/macro_ghostwalk.py`: demonstration sessions and
 the hash-linked observations recorded in each.
 */
module GhostWalkRecorder {
  import opened Wrappers
  import opened AuthorityEpoch
  import opened AuthorityLedger
  import opened HashChain

  datatype Session = Session(id: string, recorder: string, startedAt: int)

  /** `anchor` stands for the frame, pixel anchor and semantic target of one click. */
  datatype Click = Click(
    session: string, sessionSha: Digest, sequence: nat, anchor: string, observedAt: int, previous: Option<Digest>)

  datatype RecorderError = NoSession | AmbiguousSession | BrokenChain | SessionExists

  datatype Tape = Tape(sessions: seq<Session>, clicks: seq<Click>)

  datatype Digests = Digests(session: Session -> Digest, click: Click -> Digest)

  function Number(c: Click): nat { c.sequence }
  function Previous(c: Click): Option<Digest> { c.previous }

  function SessionIs(id: string): Session -> bool {
    (s: Session) => s.id == id
  }

  function InSession(id: string): Click -> bool {
    (c: Click) => c.session == id
  }

  /** A session's observations: linked in order, each naming the session and its digest. */
  ghost predicate GoodWalk(h: Digests, s: Session, rows: seq<Click>) {
    && Linked(rows, h.click, Number, Previous)
    && forall c :: c in rows ==> c.session == s.id && c.sessionSha == h.session(s)
  }

  function LoadSession(t: Tape, id: string): Result<Session, RecorderError> {
    var rows := Select(t.sessions, SessionIs(id));
    if |rows| == 0 then Failure(NoSession) else if |rows| != 1 then Failure(AmbiguousSession) else Success(rows[0])
  }

  ghost function LoadObservations(h: Digests, t: Tape, s: Session): Result<seq<Click>, RecorderError> {
    var rows := Select(t.clicks, InSession(s.id));
    if GoodWalk(h, s, rows) then Success(rows) else Failure(BrokenChain)
  }

  function NextClick(h: Digests, s: Session, rows: seq<Click>, anchor: string, at: int): Click {
    Click(s.id, h.session(s), |rows|, anchor, at, if rows == [] then None else Some(h.click(rows[|rows| - 1])))
  }

  /** Session ids are unique, every click belongs to a session, and each session's clicks are well formed. */
  ghost predicate Recorded(h: Digests, t: Tape) {
    && (forall i, j :: 0 <= i < j < |t.sessions| ==> t.sessions[i].id != t.sessions[j].id)
    && (forall c :: c in t.clicks ==> exists s :: s in t.sessions && s.id == c.session)
    && (forall s :: s in t.sessions ==> GoodWalk(h, s, Select(t.clicks, InSession(s.id))))
  }

  class Recorder {
    const h: Digests
    var sessions: seq<Session>
    var clicks: seq<Click>

    constructor (h: Digests)
      ensures this.h == h && Contents() == Tape([], []) && Recorded(h, Contents())
    {
      this.h, sessions, clicks := h, [], [];
    }

    ghost function Contents(): Tape
      reads this
    {
      Tape(sessions, clicks)
    }

    /** `start`. */
    method Start(id: string, recorder: string, at: int) returns (r: Result<Session, RecorderError>)
      requires Recorded(h, Contents())
      modifies this
      ensures Recorded(h, Contents())
      ensures r.Failure? <==> exists s :: s in old(sessions) && s.id == id
      ensures r.Failure? ==> r.error == SessionExists && Contents() == old(Contents())
      ensures r.Success? ==> r.value == Session(id, recorder, at) && Contents() == Tape(old(sessions) + [r.value], old(clicks))
    {
      SelectMembers(sessions, SessionIs(id));
      if Select(sessions, SessionIs(id)) != [] {
        var s := Select(sessions, SessionIs(id))[0];
        assert s in Select(sessions, SessionIs(id));
        return Failure(SessionExists);
      }
      var session := Session(id, recorder, at);
      SessionStarted(h, Contents(), session);
      sessions := sessions + [session];
      r := Success(session);
    }

    /** `_load_observations`: accepts exactly the well-formed walks. */
    method Load(s: Session) returns (r: Result<seq<Click>, RecorderError>)
      ensures r == LoadObservations(h, Contents(), s)
    {
      hide LinkedAt;
      var rows := Select(clicks, InSession(s.id));
      var previous: Option<Click> := None;
      var k := 0;
      while k < |rows|
        invariant k <= |rows|
        invariant forall i :: 0 <= i < k ==> LinkedAt(rows, i, h.click, Number, Previous)
        invariant forall i :: 0 <= i < k ==> rows[i].session == s.id && rows[i].sessionSha == h.session(s)
        invariant previous == if k == 0 then None else Some(rows[k - 1])
      {
        var item := rows[k];
        assert item in rows;
        LinkMeans(h, rows, k);
        if item.session != s.id || item.sessionSha != h.session(s) {
          return Failure(BrokenChain);
        }
        var expected := if previous.None? then None else Some(h.click(previous.value));
        if item.sequence != k || item.previous != expected {
          return Failure(BrokenChain);
        }
        previous := Some(item);
        k := k + 1;
      }
      r := Success(rows);
    }

    /** `record_click`: fails only for an unknown session, and otherwise extends that session alone. */
    method RecordClick(id: string, anchor: string, at: int) returns (r: Result<Click, RecorderError>)
      requires Recorded(h, Contents())
      modifies this`clicks
      ensures Recorded(h, Contents())
      ensures r.Failure? <==> !exists s :: s in sessions && s.id == id
      ensures r.Failure? ==> r.error == NoSession && clicks == old(clicks)
      ensures r.Success? ==> clicks == old(clicks) + [r.value] && r.value.session == id
      ensures r.Success? ==> Select(clicks, InSession(id)) == Select(old(clicks), InSession(id)) + [r.value]
      ensures forall other :: other != id ==> Select(clicks, InSession(other)) == Select(old(clicks), InSession(other))
    {
      hide GoodWalk;
      SelectMembers(sessions, SessionIs(id));
      SelectUnique(sessions, SessionIs(id));
      var found := LoadSession(Tape(sessions, clicks), id);
      if found.Failure? {
        forall s | s in sessions
          ensures s.id != id
        {
          assert s in Select(sessions, SessionIs(id)) <==> s.id == id;
        }
        return Failure(found.error);
      }
      var session := found.value;
      assert session in Select(sessions, SessionIs(id));
      var rows := Load(session);
      assert rows.Success?;
      var click := NextClick(h, session, rows.value, anchor, at);
      ClickRecorded(h, Contents(), session, anchor, at);
      forall other
        ensures Select(clicks + [click], InSession(other))
             == if other == id then Select(clicks, InSession(other)) + [click] else Select(clicks, InSession(other))
      {
        SelectSnoc(clicks, click, InSession(other));
      }
      clicks := clicks + [click];
      r := Success(click);
    }
  }

  lemma LinkMeans(h: Digests, rows: seq<Click>, k: nat)
    requires k < |rows|
    ensures LinkedAt(rows, k, h.click, Number, Previous)
        <==> rows[k].sequence == k && rows[k].previous == if k == 0 then None else Some(h.click(rows[k - 1]))
  {
  }

  lemma SessionStarted(h: Digests, t: Tape, s: Session)
    requires Recorded(h, t) && forall x :: x in t.sessions ==> x.id != s.id
    ensures Recorded(h, t.(sessions := t.sessions + [s]))
  {
    var after := t.(sessions := t.sessions + [s]);
    forall c | c in t.clicks
      ensures c.session != s.id && exists x :: x in after.sessions && x.id == c.session
    {
      var x :| x in t.sessions && x.id == c.session;
      assert x in after.sessions;
    }
    SelectNone(t.clicks, InSession(s.id));
    assert GoodWalk(h, s, []);
  }

  lemma ClickRecorded(h: Digests, t: Tape, s: Session, anchor: string, at: int)
    requires Recorded(h, t) && s in t.sessions
    ensures var click := NextClick(h, s, Select(t.clicks, InSession(s.id)), anchor, at);
      Recorded(h, t.(clicks := t.clicks + [click]))
  {
    hide Linked;
    var rows := Select(t.clicks, InSession(s.id));
    var click := NextClick(h, s, rows, anchor, at);
    var after := t.(clicks := t.clicks + [click]);
    LinkedSnoc(rows, click, h.click, Number, Previous);
    forall x | x in t.sessions
      ensures GoodWalk(h, x, Select(after.clicks, InSession(x.id)))
    {
      SelectSnoc(t.clicks, click, InSession(x.id));
      if x.id == s.id {
        SameSession(t, x, s);
      }
    }
    forall c | c in after.clicks
      ensures exists x :: x in after.sessions && x.id == c.session
    {
      if c == click {
        assert s in after.sessions;
      }
    }
  }

  lemma SameSession(t: Tape, a: Session, b: Session)
    requires forall i, j :: 0 <= i < j < |t.sessions| ==> t.sessions[i].id != t.sessions[j].id
    requires a in t.sessions && b in t.sessions && a.id == b.id
    ensures a == b
  {
    var i :| 0 <= i < |t.sessions| && t.sessions[i] == a;
    var j :| 0 <= j < |t.sessions| && t.sessions[j] == b;
  }

  /** Two accepted walks that end in the same digest are one walk of one session. */
  lemma SameHeadSameWalk(h: Digests, s: Session, a: seq<Click>, r: Session, b: seq<Click>)
    requires Injective(h.click) && Injective(h.session)
    requires GoodWalk(h, s, a) && GoodWalk(h, r, b) && a != [] && b != []
    requires h.click(a[|a| - 1]) == h.click(b[|b| - 1])
    ensures a == b && s == r
  {
    SharedDigestFixesPast(a, |a| - 1, b, |b| - 1, h.click, Number, Previous);
    assert a[..|a|] == a && b[..|b|] == b;
    assert a[0] in a && b[0] in b;
  }

  /** On any recorded tape the loader accepts every session's observations. */
  lemma WalksLoad(h: Digests, t: Tape, id: string)
    requires Recorded(h, t)
    ensures LoadSession(t, id) != Failure(AmbiguousSession)
    ensures LoadSession(t, id).Success? ==>
      LoadObservations(h, t, LoadSession(t, id).value) == Success(Select(t.clicks, InSession(id)))
  {
    hide GoodWalk;
    SelectUnique(t.sessions, SessionIs(id));
    SelectMembers(t.sessions, SessionIs(id));
    var rows := Select(t.sessions, SessionIs(id));
    if rows != [] {
      assert rows[0] in rows;
    }
  }
}
