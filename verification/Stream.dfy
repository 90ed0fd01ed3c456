/** At-least-once delivery over a consumer group: entries are handed out, processed and only then
    acknowledged, while consumers stop, crash, lose connections and reclaim from one another. */
module Stream {
  import opened Rows

  // Entry ids are stream positions; zero is the cursor's start and end.
  type EntryId = nat
  type ConsumerId = nat

  // What the parser makes of an entry.
  datatype Content = Message | Skippable

  // Where one consumer's generator and run loop stand. A batch is what is left of the entries
  // the last read or reclaim returned; reclaimed entries may have been trimmed meanwhile.
  datatype Place =
    | Waiting
    | Working(batch: seq<EntryId>, reclaimed: bool)
    | Yielded(entry: EntryId, batch: seq<EntryId>, reclaimed: bool)
    | Finished(entry: EntryId, batch: seq<EntryId>, reclaimed: bool)
    | Stopped

  datatype Group = Group(
    content: seq<Content>,              // entry i + 1 is content[i]
    trimmed: set<EntryId>,
    handedOut: set<EntryId>,
    pending: map<EntryId, ConsumerId>,
    acked: set<EntryId>,
    attempted: set<EntryId>,            // an apply attempt finished, whether or not it succeeded
    foundTrimmed: set<EntryId>,         // gone from the stream when a reclaiming consumer came to it
    places: map<ConsumerId, Place>)

  const FRESH := Group([], {}, {}, map[], {}, {}, {}, map[])

  predicate IsEntry(g: Group, e: EntryId) {
    1 <= e <= |g.content|
  }

  function PlaceOf(g: Group, c: ConsumerId): Place {
    if c in g.places then g.places[c] else Waiting
  }

  predicate Skips(g: Group, e: EntryId) {
    IsEntry(g, e) && g.content[e - 1].Skippable?
  }

  // Acknowledging an entry that is no longer pending does nothing.
  function Ack(g: Group, e: EntryId): Group {
    if e in g.pending then g.(pending := g.pending - {e}, acked := g.acked + {e}) else g
  }

  function Move(g: Group, c: ConsumerId, p: Place): Group {
    g.(places := g.places[c := p])
  }

  datatype Action =
    | Publish(content: Content)
    | Trim(entry: EntryId)
    | Read(consumer: ConsumerId, entries: seq<EntryId>)
    | Reclaim(consumer: ConsumerId, entries: seq<EntryId>)
    | Take(consumer: ConsumerId)          // the generator looks at the next entry of its batch
    | Attempt(consumer: ConsumerId)       // the run loop applies the message it was handed
    | Resume(consumer: ConsumerId)        // the generator resumes and acknowledges
    | Stop(consumer: ConsumerId)          // the run loop sees the stop flag and leaves
    | Lose(consumer: ConsumerId)          // crash or connection loss, at any point
    | Restart(consumer: ConsumerId)

  predicate Enabled(g: Group, a: Action) {
    match a
    case Publish(_) => true
    case Trim(e) => IsEntry(g, e)
    case Read(c, es) => PlaceOf(g, c).Waiting? && forall e :: e in es ==> IsEntry(g, e) && e !in g.handedOut
    case Reclaim(c, es) => PlaceOf(g, c).Waiting? && forall e :: e in es ==> e in g.pending
    case Take(c) => PlaceOf(g, c).Working?
    case Attempt(c) => PlaceOf(g, c).Yielded?
    case Resume(c) => PlaceOf(g, c).Finished?
    case Stop(c) => PlaceOf(g, c).Yielded?
    case Lose(c) => true
    case Restart(c) => PlaceOf(g, c).Stopped?
  }

  function Handled(g: Group, c: ConsumerId): Group
    requires PlaceOf(g, c).Working?
  {
    var p := PlaceOf(g, c);
    if p.batch == [] then Move(g, c, Waiting)
    else
      var e, rest := p.batch[0], p.batch[1..];
      if p.reclaimed && e in g.trimmed then
        Move(Ack(g.(foundTrimmed := g.foundTrimmed + {e}), e), c, Working(rest, p.reclaimed))
      else if Skips(g, e) then Move(Ack(g, e), c, Working(rest, p.reclaimed))
      else Move(g, c, Yielded(e, rest, p.reclaimed))
  }

  function Next(g: Group, a: Action): Group
    requires Enabled(g, a)
  {
    match a
    case Publish(content) => g.(content := g.content + [content])
    case Trim(e) => g.(trimmed := g.trimmed + {e})
    case Read(c, es) =>
      Move(g.(handedOut := g.handedOut + (set e | e in es), pending := g.pending + (map e | e in es :: c)), c, Working(es, false))
    case Reclaim(c, es) => Move(g.(pending := g.pending + (map e | e in es :: c)), c, Working(es, true))
    case Take(c) => Handled(g, c)
    case Attempt(c) =>
      var p := PlaceOf(g, c);
      Move(g.(attempted := g.attempted + {p.entry}), c, Finished(p.entry, p.batch, p.reclaimed))
    case Resume(c) =>
      var p := PlaceOf(g, c);
      Move(Ack(g, p.entry), c, Working(p.batch, p.reclaimed))
    case Stop(c) => Move(g, c, Stopped)
    case Lose(c) => Move(g, c, Waiting)
    case Restart(c) => Move(g, c, Waiting)
  }

  function After(actions: seq<Action>): Group
    requires Possible(actions)
    decreases |actions|, 1
  {
    if actions == [] then FRESH else Next(After(actions[..|actions| - 1]), actions[|actions| - 1])
  }

  predicate Possible(actions: seq<Action>)
    decreases |actions|, 0
  {
    actions == [] || (Possible(actions[..|actions| - 1]) && Enabled(After(actions[..|actions| - 1]), actions[|actions| - 1]))
  }

  // ------------------------------------------------------------------------------ safety

  // Nothing handed out is lost, and nothing is acknowledged without cause.
  ghost predicate AtLeastOnce(g: Group) {
    && (forall e :: e in g.handedOut <==> e in g.acked || e in g.pending)
    && (forall e :: e in g.pending ==> e !in g.acked)
    && (forall e :: e in g.acked ==> Unreadable(g, e) || e in g.foundTrimmed || e in g.attempted)
    && (forall e :: e in g.attempted ==> e in g.handedOut && !Unreadable(g, e))
  }

  // The parser makes nothing of the entry, which is content[e - 1].
  ghost predicate Unreadable(g: Group, e: EntryId) {
    1 <= e <= |g.content| && g.content[e - 1] == Skippable
  }

  // What a consumer is working on has been handed out, and is finished only after an attempt.
  ghost predicate PlacesKnown(g: Group) {
    && (forall e :: e in g.handedOut ==> IsEntry(g, e))
    && (forall c :: c in g.places ==> PlaceKnown(g, g.places[c]))
  }

  ghost predicate PlaceKnown(g: Group, p: Place) {
    && (p.Working? || p.Yielded? || p.Finished? ==> forall e :: e in p.batch ==> e in g.handedOut)
    && (p.Yielded? || p.Finished? ==> p.entry in g.handedOut && !Unreadable(g, p.entry))
    && (p.Finished? ==> p.entry in g.attempted)
  }

  ghost predicate Invariant(g: Group) {
    AtLeastOnce(g) && PlacesKnown(g)
  }

  lemma AckKeeps(g: Group, e: EntryId)
    requires Invariant(g) && (Unreadable(g, e) || e in g.foundTrimmed || e in g.attempted)
    ensures Invariant(Ack(g, e)) && (e in g.handedOut ==> e in Ack(g, e).acked)
  {
    SamePlaces(g, Ack(g, e));
  }

  lemma MoveKeeps(g: Group, c: ConsumerId, p: Place)
    requires Invariant(g) && PlaceKnown(g, p)
    ensures Invariant(Move(g, c, p))
  {
    hide PlaceKnown;
    var g' := Move(g, c, p);
    forall d | d in g'.places
      ensures PlaceKnown(g', g'.places[d])
    {
      StillKnown(g, g', g'.places[d]);
    }
  }

  // A place is as well known when no more has happened than that.
  lemma StillKnown(g: Group, g': Group, p: Place)
    requires PlaceKnown(g, p) && g.handedOut <= g'.handedOut && g.attempted <= g'.attempted
    requires forall e :: e in g.handedOut ==> Unreadable(g', e) == Unreadable(g, e)
    ensures PlaceKnown(g', p)
  {
  }

  lemma SamePlaces(g: Group, g': Group)
    requires PlacesKnown(g) && g'.places == g.places && g.handedOut <= g'.handedOut && g.attempted <= g'.attempted
    requires forall e :: e in g'.handedOut ==> IsEntry(g', e)
    requires forall e :: e in g.handedOut ==> Unreadable(g', e) == Unreadable(g, e)
    ensures PlacesKnown(g')
  {
    hide PlaceKnown;
    forall c | c in g'.places
      ensures PlaceKnown(g', g'.places[c])
    {
      StillKnown(g, g', g.places[c]);
    }
  }

  lemma KnownPlace(g: Group, c: ConsumerId)
    requires Invariant(g)
    ensures PlaceKnown(g, PlaceOf(g, c))
  {
  }

  lemma TakeKeeps(g: Group, c: ConsumerId)
    requires Invariant(g) && PlaceOf(g, c).Working?
    ensures Invariant(Handled(g, c))
  {
    hide Invariant, PlaceOf;
    KnownPlace(g, c);
    var p := PlaceOf(g, c);
    if p.batch == [] {
      MoveKeeps(g, c, Waiting);
    } else {
      var e, rest := p.batch[0], p.batch[1..];
      if p.reclaimed && e in g.trimmed {
        var found := g.(foundTrimmed := g.foundTrimmed + {e});
        FoundKeeps(g, e);
        AckKeeps(found, e);
        MoveKeeps(Ack(found, e), c, Working(rest, p.reclaimed));
      } else if Skips(g, e) {
        AckKeeps(g, e);
        MoveKeeps(Ack(g, e), c, Working(rest, p.reclaimed));
      } else {
        MoveKeeps(g, c, Yielded(e, rest, p.reclaimed));
      }
    }
  }

  lemma FoundKeeps(g: Group, e: EntryId)
    requires Invariant(g)
    ensures Invariant(g.(foundTrimmed := g.foundTrimmed + {e}))
  {
    SamePlaces(g, g.(foundTrimmed := g.foundTrimmed + {e}));
  }

  lemma PublishKeeps(g: Group, content: Content)
    requires Invariant(g)
    ensures Invariant(g.(content := g.content + [content]))
  {
    var g' := g.(content := g.content + [content]);
    forall e | IsEntry(g, e)
      ensures IsEntry(g', e) && Unreadable(g', e) == Unreadable(g, e)
    {
    }
    SamePlaces(g, g');
  }

  lemma HandOutKeeps(g: Group, c: ConsumerId, es: seq<EntryId>, reclaimed: bool)
    requires Invariant(g) && forall e :: e in es ==> IsEntry(g, e) && e !in g.acked
    ensures Invariant(Move(g.(handedOut := g.handedOut + (set e | e in es), pending := g.pending + (map e | e in es :: c)),
                           c, Working(es, reclaimed)))
  {
    var g' := g.(handedOut := g.handedOut + (set e | e in es), pending := g.pending + (map e | e in es :: c));
    SamePlaces(g, g');
    MoveKeeps(g', c, Working(es, reclaimed));
  }

  lemma AttemptKeeps(g: Group, c: ConsumerId)
    requires Invariant(g) && PlaceOf(g, c).Yielded?
    ensures Invariant(Next(g, Attempt(c)))
  {
    KnownPlace(g, c);
    var p := PlaceOf(g, c);
    var g' := g.(attempted := g.attempted + {p.entry});
    SamePlaces(g, g');
    MoveKeeps(g', c, Finished(p.entry, p.batch, p.reclaimed));
  }

  lemma ResumeKeeps(g: Group, c: ConsumerId)
    requires Invariant(g) && PlaceOf(g, c).Finished?
    ensures Invariant(Next(g, Resume(c)))
  {
    KnownPlace(g, c);
    var p := PlaceOf(g, c);
    AckKeeps(g, p.entry);
    MoveKeeps(Ack(g, p.entry), c, Working(p.batch, p.reclaimed));
  }

  lemma StepKeeps(g: Group, a: Action)
    requires Invariant(g) && Enabled(g, a)
    ensures Invariant(Next(g, a))
  {
    hide Invariant, Handled;
    match a
    case Publish(content) => PublishKeeps(g, content);
    case Trim(e) => TrimKeeps(g, e);
    case Read(c, es) =>
      NotYetHandedOut(g, es);
      HandOutKeeps(g, c, es, false);
    case Reclaim(c, es) =>
      PendingHandedOut(g, es);
      HandOutKeeps(g, c, es, true);
    case Take(c) => TakeKeeps(g, c);
    case Attempt(c) => AttemptKeeps(g, c);
    case Resume(c) => ResumeKeeps(g, c);
    case Stop(c) => MoveKeeps(g, c, Stopped);
    case Lose(c) => MoveKeeps(g, c, Waiting);
    case Restart(c) => MoveKeeps(g, c, Waiting);
  }

  lemma TrimKeeps(g: Group, e: EntryId)
    requires Invariant(g)
    ensures Invariant(g.(trimmed := g.trimmed + {e}))
  {
    SamePlaces(g, g.(trimmed := g.trimmed + {e}));
  }

  lemma NotYetHandedOut(g: Group, es: seq<EntryId>)
    requires Invariant(g) && forall e :: e in es ==> e !in g.handedOut
    ensures forall e :: e in es ==> e !in g.acked
  {
  }

  // Handing out again what is pending hands out nothing new.
  lemma PendingHandedOut(g: Group, es: seq<EntryId>)
    requires Invariant(g) && forall e :: e in es ==> e in g.pending
    ensures g.handedOut + (set e | e in es) == g.handedOut
    ensures forall e :: e in es ==> IsEntry(g, e) && e !in g.acked
  {
  }

  /** Over every interleaving: each entry handed out is acknowledged or still pending, and an
      acknowledged entry was unreadable, was found trimmed by the consumer that reclaimed it, or
      had its apply attempt finish first; and no unreadable entry is ever applied. */
  lemma {:induction false} EveryInterleaving(actions: seq<Action>)
    requires Possible(actions)
    ensures AtLeastOnce(After(actions)) && PlacesKnown(After(actions))
  {
    hide Next, Enabled;
    if actions != [] {
      EveryInterleaving(actions[..|actions| - 1]);
      StepKeeps(After(actions[..|actions| - 1]), actions[|actions| - 1]);
    }
  }

  // The consumer still has the entry before it.
  ghost predicate WorkingOn(p: Place, e: EntryId) {
    || ((p.Working? || p.Yielded? || p.Finished?) && e in p.batch)
    || ((p.Yielded? || p.Finished?) && e == p.entry)
  }

  ghost predicate OnItsDesk(g: Group, c: ConsumerId) {
    forall e :: e in g.pending && g.pending[e] == c ==> WorkingOn(PlaceOf(g, c), e)
  }

  lemma DeskKept(g: Group, a: Action, c: ConsumerId)
    requires Enabled(g, a) && a != Lose(c) && a != Stop(c) && OnItsDesk(g, c)
    ensures OnItsDesk(Next(g, a), c)
  {
    var p, g' := PlaceOf(g, c), Next(g, a);
    if a == Take(c) && p.batch != [] {
      assert p.batch == [p.batch[0]] + p.batch[1..];
    }
  }

  /** Nothing is forgotten: as long as a consumer is neither stopped nor lost, whatever is pending
      for it is before it, so when it comes to wait for more it has nothing pending. */
  lemma {:induction false} NothingForgotten(actions: seq<Action>, c: ConsumerId)
    requires Possible(actions) && Lose(c) !in actions && Stop(c) !in actions
    ensures var g := After(actions);
            && (forall e :: e in g.pending && g.pending[e] == c ==> WorkingOn(PlaceOf(g, c), e))
            && (PlaceOf(g, c).Waiting? ==> c !in g.pending.Values)
  {
    hide Next, Enabled, WorkingOn;
    if actions != [] {
      var front, a := actions[..|actions| - 1], actions[|actions| - 1];
      NothingForgotten(front, c);
      DeskKept(After(front), a, c);
    }
    WaitingWorksOnNothing();
  }

  lemma WaitingWorksOnNothing()
    ensures forall e :: !WorkingOn(Waiting, e)
  {
  }

  /** Acknowledgement is final, and so are attempts: neither is ever taken back. */
  lemma {:induction false} NothingTakenBack(actions: seq<Action>, k: nat)
    requires Possible(actions) && k <= |actions|
    ensures Possible(actions[..k])
    ensures After(actions[..k]).acked <= After(actions).acked
    ensures After(actions[..k]).attempted <= After(actions).attempted
    ensures After(actions[..k]).handedOut <= After(actions).handedOut
  {
    if k == |actions| {
      assert actions[..k] == actions;
    } else {
      var front := actions[..|actions| - 1];
      NothingTakenBack(front, k);
      assert front[..k] == actions[..k];
    }
  }

  // Step j of the run is a finished apply attempt on entry e.
  ghost predicate AttemptAt(actions: seq<Action>, j: nat, e: EntryId) {
    && j < |actions| && actions[j].Attempt?
    && Possible(actions[..j])
    && var p := PlaceOf(After(actions[..j]), actions[j].consumer);
       p.Yielded? && p.entry == e
  }

  // At step j of the run a consumer comes to an entry it reclaimed and finds it trimmed.
  ghost predicate FoundTrimmedAt(actions: seq<Action>, j: nat, e: EntryId) {
    && j < |actions| && actions[j].Take?
    && Possible(actions[..j])
    && e in After(actions[..j]).trimmed
    && var p := PlaceOf(After(actions[..j]), actions[j].consumer);
       p.Working? && p.reclaimed && p.batch != [] && p.batch[0] == e
  }

  lemma {:induction false} AttemptOnRecord(actions: seq<Action>, e: EntryId) returns (j: nat)
    requires Possible(actions) && e in After(actions).attempted
    ensures AttemptAt(actions, j, e)
  {
    var n := |actions| - 1;
    var front := actions[..n];
    if e in After(front).attempted {
      j := AttemptOnRecord(front, e);
      assert front[..j] == actions[..j];
    } else {
      j := n;
    }
  }

  lemma {:induction false} TrimmedOnRecord(actions: seq<Action>, e: EntryId) returns (j: nat)
    requires Possible(actions) && e in After(actions).foundTrimmed
    ensures FoundTrimmedAt(actions, j, e)
  {
    var n := |actions| - 1;
    var front := actions[..n];
    if e in After(front).foundTrimmed {
      j := TrimmedOnRecord(front, e);
      assert front[..j] == actions[..j];
    } else {
      j := n;
    }
  }

  /** Processing comes first: a message acknowledged by step k has, among the steps before k, an
      apply attempt, or one at which the consumer that reclaimed it found it trimmed. */
  lemma AckedAfterAttempt(actions: seq<Action>, k: nat, e: EntryId) returns (j: nat)
    requires Possible(actions) && k <= |actions| && Possible(actions[..k])
    requires e in After(actions[..k]).acked && !Unreadable(After(actions[..k]), e)
    ensures j < k && (AttemptAt(actions, j, e) || FoundTrimmedAt(actions, j, e))
  {
    hide Next, Enabled;
    EveryInterleaving(actions[..k]);
    if e in After(actions[..k]).attempted {
      j := AttemptOnRecord(actions[..k], e);
    } else {
      j := TrimmedOnRecord(actions[..k], e);
    }
    assert actions[..k][..j] == actions[..j];
  }
}
