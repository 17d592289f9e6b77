/** Resuming a stream: frame ids, Last-Event-ID and what a client ends up with
    (handler/chat_handler.go). */
module Resume {
  import opened Wrappers
  import opened Sse
  import opened RunBuffer

  function Take<T>(s: seq<T>, n: nat): seq<T> { if n <= |s| then s[..n] else s }

  /** The buffer indices, from `from` on, of the events that marshal. */
  function Sendable<E>(events: seq<E>, marshal: E -> Option<string>, from: nat): seq<nat>
    decreases |events| - from
  {
    if from >= |events| then []
    else (if marshal(events[from]).Some? then [from] else []) + Sendable(events, marshal, from + 1)
  }

  /** Frame k carries the event at index `sent[k]` under the id `id + k`. */
  ghost predicate Carry<E>(events: seq<E>, marshal: E -> Option<string>, id: nat, frames: seq<Frame>, sent: seq<nat>) {
    && |frames| == |sent|
    && forall k :: 0 <= k < |frames| ==>
         && sent[k] < |events| && marshal(events[sent[k]]).Some?
         && frames[k] == Frame(id + k, marshal(events[sent[k]]).value)
  }

  lemma CarryCons<E>(events: seq<E>, marshal: E -> Option<string>, from: nat, id: nat, frames: seq<Frame>,
                     sent: seq<nat>)
    requires from < |events| && marshal(events[from]).Some? && Carry(events, marshal, id + 1, frames, sent)
    ensures Carry(events, marshal, id, [Frame(id, marshal(events[from]).value)] + frames, [from] + sent)
  {
    var all := [Frame(id, marshal(events[from]).value)] + frames;
    forall k | 0 < k < |all| ensures all[k] == Frame(id + k, marshal(events[sent[k - 1]]).value) {
      assert frames[k - 1] == Frame(id + 1 + (k - 1), marshal(events[sent[k - 1]]).value);
    }
  }

  /** The frames of a connection from `from`: the k-th carries the k-th event that marshals, under
      the id `from + k`. */
  lemma {:induction false} FramesAreSendable<E>(events: seq<E>, marshal: E -> Option<string>, from: nat, id: nat)
    ensures Carry(events, marshal, id, FramesFrom(Deliver(events, from), marshal, id), Sendable(events, marshal, from))
    decreases |events| - from
  {
    if from >= |events| {
      assert Deliver(events, from) == [];
    } else {
      var next := if marshal(events[from]).Some? then id + 1 else id;
      var frames, sent := FramesFrom(Deliver(events, from + 1), marshal, next), Sendable(events, marshal, from + 1);
      FramesAreSendable(events, marshal, from + 1, next);
      assert Deliver(events, from)[1..] == Deliver(events, from + 1);
      if marshal(events[from]).Some? {
        CarryCons(events, marshal, from, id, frames, sent);
      } else {
        assert [] + sent == sent;
      }
    }
  }

  /** `handleResume`: one after the Last-Event-ID, if the header is there and a non-negative number. */
  function FromIndex(lastEventId: Option<int>): nat {
    match lastEventId
    case None => 0
    case Some(n) => if n >= 0 then n + 1 else 0
  }

  /** A resume starts one after a non-negative number, and from the beginning on any other header. */
  lemma HeaderDecidesStart(n: int)
    ensures n >= 0 ==> FromIndex(Some(n)) == n + 1
    ensures n < 0 ==> FromIndex(Some(n)) == 0
    ensures FromIndex(None) == 0
  {}

  /** A client: the buffer indices of the events it has received, in order, and the id of the last
      frame it saw, which it sends as Last-Event-ID. */
  datatype Client = Client(got: seq<nat>, lastId: Option<int>)

  function LastId(frames: seq<Frame>, before: Option<int>): Option<int> {
    if frames == [] then before else Some(frames[|frames| - 1].id)
  }

  /** What a client has after a connection from `from` that is lost after `n` event frames. */
  function Receive<E>(events: seq<E>, marshal: E -> Option<string>, from: nat, n: nat, c: Client): Client {
    Client(c.got + Take(Sendable(events, marshal, from), n),
           LastId(Take(FramesFrom(Deliver(events, from), marshal, from), n), c.lastId))
  }

  /** The first connection, lost after `n` frames: the conversation frame, whose id is 0, and then
      the event frames. */
  function Connect<E>(events: seq<E>, marshal: E -> Option<string>, n: nat): Client {
    if n == 0 then Client([], None) else Receive(events, marshal, 0, n - 1, Client([], Some(0)))
  }

  /** A reconnection, lost after `n` event frames. */
  function Reconnect<E>(events: seq<E>, marshal: E -> Option<string>, c: Client, n: nat): Client {
    Receive(events, marshal, FromIndex(c.lastId), n, c)
  }

  function Session<E>(events: seq<E>, marshal: E -> Option<string>, first: nat, later: seq<nat>): Client {
    if later == [] then Connect(events, marshal, first)
    else Reconnect(events, marshal, Session(events, marshal, first, later[..|later| - 1]), later[|later| - 1])
  }

  /** Where the client's next connection starts. */
  function ResumeIndex(c: Client): nat { FromIndex(c.lastId) }

  /** The first connection brought the conversation frame and no event frame. */
  predicate OnlyConversation<E>(events: seq<E>, marshal: E -> Option<string>, first: nat) {
    first >= 1 && Take(Sendable(events, marshal, 0), first - 1) == []
  }

  /** Every event before `upto` marshalled; but event 0, if only the conversation frame came, did not. */
  ghost predicate Aligned<E>(events: seq<E>, marshal: E -> Option<string>, only: bool, upto: nat) {
    forall i :: 0 <= i < upto && i < |events| ==> (marshal(events[i]).Some? <==> !(only && i == 0))
  }

  ghost predicate Rising(s: seq<nat>) { forall a, b :: 0 <= a < b < |s| ==> s[a] < s[b] }

  lemma RisingCons(x: nat, s: seq<nat>)
    requires Rising(s) && forall i :: i in s ==> x < i
    ensures Rising([x] + s)
  {
    forall a, b | 0 <= a < b < |[x] + s| ensures ([x] + s)[a] < ([x] + s)[b] {
      assert s[b - 1] in s;
    }
  }

  lemma {:induction false} SendableHolds<E>(events: seq<E>, marshal: E -> Option<string>, from: nat, i: nat)
    ensures i in Sendable(events, marshal, from) <==> from <= i < |events| && marshal(events[i]).Some?
    decreases |events| - from
  {
    if from >= |events| {
    } else {
      var first, rest := if marshal(events[from]).Some? then [from] else [], Sendable(events, marshal, from + 1);
      SendableHolds(events, marshal, from + 1, i);
      assert Sendable(events, marshal, from) == first + rest;
      assert i in first + rest <==> i in first || i in rest;
    }
  }

  lemma {:induction false} SendableRising<E>(events: seq<E>, marshal: E -> Option<string>, from: nat)
    ensures Rising(Sendable(events, marshal, from))
    decreases |events| - from
  {
    if from >= |events| {
    } else {
      var rest := Sendable(events, marshal, from + 1);
      SendableRising(events, marshal, from + 1);
      if marshal(events[from]).Some? {
        forall i | i in rest ensures from < i {
          SendableHolds(events, marshal, from + 1, i);
        }
        RisingCons(from, rest);
      } else {
        assert [] + rest == rest;
      }
    }
  }

  lemma SendableRises<E>(events: seq<E>, marshal: E -> Option<string>, from: nat)
    ensures Rising(Sendable(events, marshal, from))
    ensures forall i :: i in Sendable(events, marshal, from) <==> from <= i < |events| && marshal(events[i]).Some?
  {
    SendableRising(events, marshal, from);
    forall i: nat ensures i in Sendable(events, marshal, from) <==> from <= i < |events| && marshal(events[i]).Some? {
      SendableHolds(events, marshal, from, i);
    }
  }

  /** Skipping forward over `n` events that all marshal takes off the first `n` indices. */
  lemma {:induction false} SendableRun<E>(events: seq<E>, marshal: E -> Option<string>, from: nat, n: nat)
    requires from + n <= |events| && forall i :: from <= i < from + n ==> marshal(events[i]).Some?
    ensures n <= |Sendable(events, marshal, from)|
    ensures Sendable(events, marshal, from) == Sendable(events, marshal, from)[..n] +
            Sendable(events, marshal, from + n)
    decreases n
  {
    if n == 0 {
    } else {
      SendableRun(events, marshal, from + 1, n - 1);
      var s, rest := Sendable(events, marshal, from), Sendable(events, marshal, from + 1);
      assert s == [from] + rest;
      assert s[..n] == [from] + rest[..n - 1];
    }
  }

  lemma {:induction false} RisingGrows(s: seq<nat>, low: nat, n: nat)
    requires Rising(s) && n < |s| && low <= s[0]
    ensures s[n] >= low + n
  {
    if n == 0 {
    } else {
      RisingGrows(s, low, n - 1);
    }
  }

  lemma SendableTail<E>(events: seq<E>, marshal: E -> Option<string>, from: nat, n: nat)
    requires from < |events| && marshal(events[from]).Some? && 0 < n <= |Sendable(events, marshal, from)|
    ensures n - 1 <= |Sendable(events, marshal, from + 1)|
    ensures n > 1 ==> Sendable(events, marshal, from)[n - 1] == Sendable(events, marshal, from + 1)[n - 2]
    ensures n == 1 ==> Sendable(events, marshal, from)[n - 1] == from
  {
    assert Sendable(events, marshal, from) == [from] + Sendable(events, marshal, from + 1);
  }

  lemma SendableAtLeast<E>(events: seq<E>, marshal: E -> Option<string>, from: nat, n: nat)
    requires from < |events| && marshal(events[from]).None? && n < |Sendable(events, marshal, from)|
    ensures Sendable(events, marshal, from)[n] >= from + 1 + n
  {
    var rest := Sendable(events, marshal, from + 1);
    assert Sendable(events, marshal, from) == rest by {
      assert [] + rest == rest;
    }
    SendableRises(events, marshal, from + 1);
    assert rest[0] in rest;
    RisingGrows(rest, from + 1, n);
  }

  /** If an event of the stretch does not marshal, its frames reach past it. */
  lemma {:induction false} SendableSkips<E>(events: seq<E>, marshal: E -> Option<string>, from: nat, n: nat, bad: nat)
    requires 0 < n <= |Sendable(events, marshal, from)| && from <= bad < from + n && bad < |events|
    requires marshal(events[bad]).None?
    ensures Sendable(events, marshal, from)[n - 1] >= from + n
    decreases n
  {
    if marshal(events[from]).Some? {
      assert from != bad;
      SendableTail(events, marshal, from, n);
      SendableSkips(events, marshal, from + 1, n - 1, bad);
    } else {
      SendableAtLeast(events, marshal, from, n - 1);
    }
  }

  /** Something the client has is sent again, or event 0 was passed over. */
  ghost predicate Broken<E>(events: seq<E>, marshal: E -> Option<string>, only: bool, got: seq<nat>, from: nat) {
    || !Rising(got)
    || (exists p :: p in got && p >= from)
    || (only && events != [] && marshal(events[0]).Some? && from >= 1 && 0 !in got)
  }

  ghost predicate AllSent<E>(events: seq<E>, marshal: E -> Option<string>, got: seq<nat>) {
    forall p :: p in got ==> p < |events| && marshal(events[p]).Some?
  }

  /** Either a copy is exactly what lies before its resume index, or it is broken. */
  ghost predicate CopyInv<E>(events: seq<E>, marshal: E -> Option<string>, only: bool, got: seq<nat>, from: nat) {
    && AllSent(events, marshal, got) && (only ==> from >= 1)
    && if Aligned(events, marshal, only, from)
       then got + Sendable(events, marshal, from) == Sendable(events, marshal, 0)
       else Broken(events, marshal, only, got, from)
  }

  ghost predicate ClientInv<E>(events: seq<E>, marshal: E -> Option<string>, only: bool, c: Client) {
    CopyInv(events, marshal, only, c.got, ResumeIndex(c))
  }

  /** What a connection from `from` lost after `n` event frames brings. */
  lemma ConnectionBrings<E>(events: seq<E>, marshal: E -> Option<string>, from: nat, n: nat, before: Option<int>)
    requires FromIndex(before) == from
    ensures var more := Take(Sendable(events, marshal, from), n);
            var id := LastId(Take(FramesFrom(Deliver(events, from), marshal, from), n), before);
            && FromIndex(id) == from + |more|
            && |more| <= |Sendable(events, marshal, from)| && more == Sendable(events, marshal, from)[..|more|]
  {
    FramesAreSendable(events, marshal, from, from);
    var more := Take(Sendable(events, marshal, from), n);
    assert more == Sendable(events, marshal, from)[..|more|];
  }

  lemma SendableEnds<E>(events: seq<E>, marshal: E -> Option<string>, from: nat, n: nat)
    requires 0 < n <= |Sendable(events, marshal, from)|
    ensures from + n <= |events|
  {
    var sent := Sendable(events, marshal, from);
    SendableRises(events, marshal, from);
    assert sent[0] in sent && sent[n - 1] in sent;
    RisingGrows(sent, from, n - 1);
  }

  lemma ExtendAligned<E>(events: seq<E>, marshal: E -> Option<string>, only: bool, got: seq<nat>, from: nat, n: nat)
    requires got + Sendable(events, marshal, from) == Sendable(events, marshal, 0)
    requires only ==> from >= 1
    requires n <= |Sendable(events, marshal, from)| && from + n <= |events| && Aligned(events, marshal, only, from + n)
    ensures got + Sendable(events, marshal, from)[..n] + Sendable(events, marshal, from + n) ==
            Sendable(events, marshal, 0)
  {
    SendableRun(events, marshal, from, n);
    var s := Sendable(events, marshal, from);
    assert got + s == got + s[..n] + Sendable(events, marshal, from + n);
  }

  lemma ExtendMisaligned<E>(events: seq<E>, marshal: E -> Option<string>, only: bool, got: seq<nat>, from: nat, n: nat)
    requires only ==> from >= 1
    requires n <= |Sendable(events, marshal, from)|
    requires Aligned(events, marshal, only, from) && !Aligned(events, marshal, only, from + n)
    ensures Broken(events, marshal, only, got + Sendable(events, marshal, from)[..n], from + n)
  {
    var s := Sendable(events, marshal, from);
    var bad :| 0 <= bad < from + n && bad < |events| && !(marshal(events[bad]).Some? <==> !(only && bad == 0));
    assert bad >= from;
    SendableSkips(events, marshal, from, n, bad);
    assert s[n - 1] in got + s[..n] by {
      assert (got + s[..n])[|got| + n - 1] == s[n - 1];
    }
  }

  lemma ExtendUnsorted(got: seq<nat>, more: seq<nat>)
    requires !Rising(got)
    ensures !Rising(got + more)
  {
    var a, b :| 0 <= a < b < |got| && got[a] >= got[b];
    assert (got + more)[a] == got[a] && (got + more)[b] == got[b];
  }

  lemma ExtendRepeated(got: seq<nat>, more: seq<nat>, p: nat)
    requires p in got && more != [] && more[0] <= p
    ensures !Rising(got + more)
  {
    var a :| 0 <= a < |got| && got[a] == p;
    assert (got + more)[a] == p && (got + more)[|got|] == more[0];
  }

  lemma FirstIsLeast(s: seq<nat>, p: nat)
    requires Rising(s) && p in s
    ensures s[0] <= p
  {}

  /** What is broken stays broken. */
  lemma ExtendBroken<E>(events: seq<E>, marshal: E -> Option<string>, only: bool, got: seq<nat>, from: nat, n: nat)
    requires Broken(events, marshal, only, got, from) && n <= |Sendable(events, marshal, from)|
    requires AllSent(events, marshal, got)
    ensures Broken(events, marshal, only, got + Sendable(events, marshal, from)[..n], from + n)
  {
    var more := Sendable(events, marshal, from)[..n];
    SendableRises(events, marshal, from);
    if !Rising(got) {
      ExtendUnsorted(got, more);
    } else if n == 0 {
      assert got + more == got;
    } else if p :| p in got && p >= from {
      assert p in Sendable(events, marshal, from);
      FirstIsLeast(Sendable(events, marshal, from), p);
      ExtendRepeated(got, more, p);
    } else {
      assert forall i :: i in more ==> i in Sendable(events, marshal, from);
      assert 0 !in got + more;
    }
  }

  lemma SentGrows<E>(events: seq<E>, marshal: E -> Option<string>, got: seq<nat>, from: nat, n: nat)
    requires AllSent(events, marshal, got) && n <= |Sendable(events, marshal, from)|
    ensures AllSent(events, marshal, got + Sendable(events, marshal, from)[..n])
  {
    SendableRises(events, marshal, from);
    var more := Sendable(events, marshal, from)[..n];
    assert forall p :: p in more ==> p in Sendable(events, marshal, from);
  }

  lemma ExtendCopy<E>(events: seq<E>, marshal: E -> Option<string>, only: bool, got: seq<nat>, from: nat, n: nat)
    requires CopyInv(events, marshal, only, got, from) && n <= |Sendable(events, marshal, from)|
    ensures CopyInv(events, marshal, only, got + Sendable(events, marshal, from)[..n], from + n)
  {
    var more := Sendable(events, marshal, from)[..n];
    SentGrows(events, marshal, got, from, n);
    if !Aligned(events, marshal, only, from) {
      ExtendBroken(events, marshal, only, got, from, n);
    } else if n == 0 {
      assert got + more == got;
    } else if Aligned(events, marshal, only, from + n) {
      SendableEnds(events, marshal, from, n);
      ExtendAligned(events, marshal, only, got, from, n);
    } else {
      ExtendMisaligned(events, marshal, only, got, from, n);
    }
  }

  lemma ExtendClient<E>(events: seq<E>, marshal: E -> Option<string>, only: bool, c: Client, n: nat)
    requires ClientInv(events, marshal, only, c)
    ensures ClientInv(events, marshal, only, Reconnect(events, marshal, c, n))
  {
    var from := ResumeIndex(c);
    ConnectionBrings(events, marshal, from, n, c.lastId);
    ExtendCopy(events, marshal, only, c.got, from, |Take(Sendable(events, marshal, from), n)|);
  }

  lemma AlignedToOne<E>(events: seq<E>, marshal: E -> Option<string>)
    ensures Aligned(events, marshal, true, 1) <==> events == [] || marshal(events[0]).None?
  {}

  /** Resuming after the conversation frame alone starts at event 1. */
  lemma ConversationOnly<E>(events: seq<E>, marshal: E -> Option<string>, c: Client)
    requires c == Client([], Some(0))
    ensures ClientInv(events, marshal, true, c)
  {
    AlignedToOne(events, marshal);
    var rest := Sendable(events, marshal, 1);
    assert [] + rest == rest;
    if events == [] || marshal(events[0]).None? {
      assert Sendable(events, marshal, 0) == rest;
    }
  }

  lemma NothingSeen<E>(events: seq<E>, marshal: E -> Option<string>)
    ensures ClientInv(events, marshal, false, Client([], None))
  {
    var all := Sendable(events, marshal, 0);
    assert [] + all == all;
  }

  lemma LastIdForgets(frames: seq<Frame>, sent: seq<nat>, n: nat, a: Option<int>, b: Option<int>)
    requires |frames| == |sent| && Take(sent, n) != []
    ensures LastId(Take(frames, n), a) == LastId(Take(frames, n), b)
  {
    assert |Take(frames, n)| == |Take(sent, n)|;
  }

  /** A first connection that brings an event frame leaves the client as a reconnection of one that
      has seen nothing would. */
  lemma ConnectIsReconnect<E>(events: seq<E>, marshal: E -> Option<string>, first: nat)
    requires first >= 1 && !OnlyConversation(events, marshal, first)
    ensures Connect(events, marshal, first) == Reconnect(events, marshal, Client([], None), first - 1)
  {
    FramesAreSendable(events, marshal, 0, 0);
    LastIdForgets(FramesFrom(Deliver(events, 0), marshal, 0), Sendable(events, marshal, 0), first - 1, Some(0), None);
  }

  lemma FirstConnection<E>(events: seq<E>, marshal: E -> Option<string>, first: nat)
    ensures ClientInv(events, marshal, OnlyConversation(events, marshal, first), Connect(events, marshal, first))
  {
    if first == 0 {
      NothingSeen(events, marshal);
    } else if OnlyConversation(events, marshal, first) {
      FramesAreSendable(events, marshal, 0, 0);
      ConversationOnly(events, marshal, Connect(events, marshal, first));
    } else {
      NothingSeen(events, marshal);
      ConnectIsReconnect(events, marshal, first);
      ExtendClient(events, marshal, false, Client([], None), first - 1);
    }
  }

  /** However often and wherever the connection drops, the client has exactly the sendable events
      before its resume index, or its copy is broken. */
  lemma {:induction false} SessionShape<E>(events: seq<E>, marshal: E -> Option<string>, first: nat, later: seq<nat>)
    ensures ClientInv(events, marshal, OnlyConversation(events, marshal, first), Session(events, marshal, first, later))
  {
    if later == [] {
      FirstConnection(events, marshal, first);
    } else {
      var before := Session(events, marshal, first, later[..|later| - 1]);
      SessionShape(events, marshal, first, later[..|later| - 1]);
      ExtendClient(events, marshal, OnlyConversation(events, marshal, first), before, later[|later| - 1]);
    }
  }

  lemma BrokenIsNotComplete<E>(events: seq<E>, marshal: E -> Option<string>, only: bool, got: seq<nat>, from: nat)
    requires Broken(events, marshal, only, got, from)
    requires AllSent(events, marshal, got)
    ensures got + Sendable(events, marshal, from) != Sendable(events, marshal, 0)
  {
    var rest, all := Sendable(events, marshal, from), Sendable(events, marshal, 0);
    SendableRises(events, marshal, from);
    SendableRises(events, marshal, 0);
    var whole := got + rest;
    if !Rising(got) {
      var a, b :| 0 <= a < b < |got| && got[a] >= got[b];
      assert whole[a] == got[a] && whole[b] == got[b];
    } else if p :| p in got && p >= from {
      assert p in rest;
      var a :| 0 <= a < |got| && got[a] == p;
      var k :| 0 <= k < |rest| && rest[k] == p;
      assert whole[a] == p && whole[|got| + k] == p;
    } else {
      assert 0 in all;
      assert 0 !in whole;
    }
  }

  lemma {:induction false} SendableFits<E>(events: seq<E>, marshal: E -> Option<string>, from: nat)
    ensures |Sendable(events, marshal, from)| <= |events|
    ensures from <= |events| ==> |Sendable(events, marshal, from)| <= |events| - from
    decreases |events| - from
  {
    if from >= |events| {
    } else {
      SendableFits(events, marshal, from + 1);
    }
  }

  /** A client that drops any number of times and then stays to the end gets every sendable event
      exactly once and in order if and only if every event before its last resume index marshalled,
      except that event 0 must not have if its first connection brought the conversation frame
      alone: the ids count frames, and the conversation frame has the id of event 0. */
  lemma ResumeIsCompleteIff<E>(events: seq<E>, marshal: E -> Option<string>, first: nat, later: seq<nat>, last: nat)
    requires last >= |events|
    ensures Session(events, marshal, first, later + [last]).got == Sendable(events, marshal, 0)
       <==> Aligned(events, marshal, OnlyConversation(events, marshal, first),
                    ResumeIndex(Session(events, marshal, first, later)))
  {
    assert (later + [last])[..|later|] == later;
    var c := Session(events, marshal, first, later);
    var only, from := OnlyConversation(events, marshal, first), ResumeIndex(c);
    SessionShape(events, marshal, first, later);
    SendableFits(events, marshal, from);
    if !Aligned(events, marshal, only, from) {
      BrokenIsNotComplete(events, marshal, only, c.got, from);
    }
  }

  lemma {:induction false} AllSendable<E>(events: seq<E>, marshal: E -> Option<string>, from: nat)
    requires from <= |events| && forall i :: 0 <= i < |events| ==> marshal(events[i]).Some?
    ensures Sendable(events, marshal, from) == seq(|events| - from, i => from + i)
    decreases |events| - from
  {
    if from == |events| {
    } else {
      AllSendable(events, marshal, from + 1);
      assert Sendable(events, marshal, from) == [from] + Sendable(events, marshal, from + 1);
    }
  }

  /** When everything marshals, only the conversation frame alone can put a client out of step. */
  lemma AllMarshalAligned<E>(events: seq<E>, marshal: E -> Option<string>, first: nat, upto: nat)
    requires forall i :: 0 <= i < |events| ==> marshal(events[i]).Some?
    requires OnlyConversation(events, marshal, first) ==> upto >= 1
    ensures Aligned(events, marshal, OnlyConversation(events, marshal, first), upto) <==> first != 1 || events == []
  {
    AllSendable(events, marshal, 0);
    var only := OnlyConversation(events, marshal, first);
    assert events != [] ==> (only <==> first == 1);
    assert events != [] && only ==> marshal(events[0]).Some?;
  }

  /** When everything marshals, resuming is complete unless the first connection brought the
      conversation frame and nothing else: a client that lost even that one, or that got an event,
      misses nothing. */
  lemma ResumeWhenAllMarshal<E>(events: seq<E>, marshal: E -> Option<string>, first: nat, later: seq<nat>, last: nat)
    requires last >= |events| && forall i :: 0 <= i < |events| ==> marshal(events[i]).Some?
    ensures Sendable(events, marshal, 0) == seq(|events|, i => i)
    ensures Session(events, marshal, first, later + [last]).got == Sendable(events, marshal, 0)
       <==> first != 1 || events == []
  {
    ResumeIsCompleteIff(events, marshal, first, later, last);
    SessionShape(events, marshal, first, later);
    AllMarshalAligned(events, marshal, first, ResumeIndex(Session(events, marshal, first, later)));
    AllSendable(events, marshal, 0);
  }
}
