/**
 No context is ever lost: each one is the current entry of its key or cancelled, over any run of ticks
 (agent/decoders.go).
 */
module Lifecycle {
  import opened PortPlan
  import opened Supervisor

  /** A context is the one its key currently holds. */
  predicate Current(s: Sup, c: nat)
    requires c < |s.contexts|
  {
    match s.contexts[c]
    case Decoder(key, _, _, _) => key in s.active && s.active[key].ctx == c
    case Forwarder(key, _) => key in s.forwarders && s.forwarders[key] == c
  }

  predicate OwnDecoder(s: Sup, key: string)
    requires key in s.active
  {
    var c := s.active[key];
    c.ctx < |s.contexts| && s.contexts[c.ctx] == Decoder(key, c.role, c.identity, c.ports)
  }

  predicate OwnForwarder(s: Sup, key: string)
    requires key in s.forwarders
  {
    var c := s.forwarders[key];
    c < |s.contexts| && s.contexts[c].Forwarder? && s.contexts[c].key == key
  }

  /** Every context ever created is either the current entry of its key or cancelled, never both. */
  ghost predicate Conserved(s: Sup) {
    && (forall key :: key in s.active ==> OwnDecoder(s, key))
    && (forall key :: key in s.forwarders ==> OwnForwarder(s, key))
    && (forall c :: c in s.cancelled ==> c < |s.contexts|)
    && (forall c :: 0 <= c < |s.contexts| ==> (Current(s, c) <==> c !in s.cancelled))
  }

  /** Contexts are only ever added, and cancelling is final. */
  predicate Grows(s: Sup, t: Sup) {
    s.contexts <= t.contexts && s.cancelled <= t.cancelled
  }

  predicate Twins(c: Context, d: Context) {
    c.key == d.key && (c.Decoder? <==> d.Decoder?)
  }

  /** No key has two live decoders, and none two live relays. */
  ghost predicate OneLivePerKey(s: Sup) {
    forall c, d :: 0 <= c < d < |s.contexts| && Twins(s.contexts[c], s.contexts[d]) ==>
        c in s.cancelled || d in s.cancelled
  }

  lemma StopDecoderConserves(s: Sup, key: string)
    requires Conserved(s)
    ensures Conserved(StopDecoder(s, key)) && Grows(s, StopDecoder(s, key)) && key !in StopDecoder(s, key).active
  {
  }

  lemma StartDecoderConserves(s: Sup, e: Entry)
    requires Conserved(s) && EntryKey(e) !in s.active
    ensures Conserved(StartDecoder(s, e)) && Grows(s, StartDecoder(s, e))
  {
    var t := StartDecoder(s, e);
    forall c | 0 <= c < |t.contexts| ensures Current(t, c) <==> c !in t.cancelled {
      if c < |s.contexts| {
        assert t.contexts[c] == s.contexts[c] && (Current(s, c) <==> c !in s.cancelled);
      }
    }
  }

  lemma {:induction false} AdoptedConserves(s: Sup, p: seq<Entry>, n: nat)
    requires Conserved(s) && n <= |p|
    ensures Conserved(Adopted(s, p, n)) && Grows(s, Adopted(s, p, n))
  {
    hide Conserved, StartDecoder, StopDecoder;
    if n > 0 {
      AdoptedConserves(s, p, n - 1);
      var (t, e) := (Adopted(s, p, n - 1), p[n - 1]);
      StopDecoderConserves(t, EntryKey(e));
      StartDecoderConserves(StopDecoder(t, EntryKey(e)), e);
    }
  }

  lemma DropUnseenConserves(s: Sup, seen: set<string>)
    requires Conserved(s)
    ensures Conserved(DropUnseen(s, seen)) && Grows(s, DropUnseen(s, seen))
  {
  }

  lemma {:induction false} ForwardedConserves(s: Sup, p: seq<Entry>, n: nat)
    requires Conserved(s) && n <= |p|
    ensures Conserved(Forwarded(s, p, n)) && Grows(s, Forwarded(s, p, n))
  {
    if n > 0 {
      ForwardedConserves(s, p, n - 1);
      ForwardConserves(Forwarded(s, p, n - 1), p[n - 1]);
    }
  }

  lemma ForwardConserves(s: Sup, e: Entry)
    requires Conserved(s)
    ensures Conserved(Forward(s, e)) && Grows(s, Forward(s, e))
  {
    var t := Forward(s, e);
    forall c | 0 <= c < |t.contexts| ensures Current(t, c) <==> c !in t.cancelled {
      if c < |s.contexts| {
        assert t.contexts[c] == s.contexts[c] && (Current(s, c) <==> c !in s.cancelled);
      }
    }
  }

  lemma DropUnwantedConserves(s: Sup, wanted: set<string>)
    requires Conserved(s)
    ensures Conserved(DropUnwanted(s, wanted)) && Grows(s, DropUnwanted(s, wanted))
  {
  }

  /** Stopping cancels every context there ever was. */
  lemma StoppedConserves(s: Sup)
    requires Conserved(s)
    ensures Conserved(Stopped(s)) && Grows(s, Stopped(s))
    ensures forall c :: 0 <= c < |s.contexts| ==> c in Stopped(s).cancelled
  {
  }

  lemma ReconciledConserves(s: Sup, p: seq<Entry>)
    requires Conserved(s)
    ensures Conserved(Reconciled(s, p)) && Grows(s, Reconciled(s, p))
  {
    AdoptedConserves(s, p, |p|);
    var a := Adopted(s, p, |p|);
    DropUnseenConserves(a, Seen(p));
    var b := DropUnseen(a, Seen(p));
    ForwardedConserves(b, p, |p|);
    var c := Forwarded(b, p, |p|);
    DropUnwantedConserves(c, Wanted(p));
    InventoryIrrelevant(DropUnwanted(c, Wanted(p)), multiset(p));
  }

  lemma InventoryIrrelevant(s: Sup, p: multiset<Entry>)
    requires Conserved(s)
    ensures Conserved(s.(inventory := p))
  {
  }

  /** What any event keeps. */
  lemma AfterConserves(s: Sup, e: Event)
    requires Conserved(s)
    ensures Conserved(After(s, e)) && Grows(s, After(s, e))
  {
    hide Conserved, Reconciled, Stopped;
    StoppedConserves(s);
    if e.Tick? {
      ReconciledConserves(s, Plan(e.assigns));
    }
  }

  /**
   Over any run, duplicate keys included, every context is current or cancelled;
   no key has two live decoders or relays; nothing is live after a disabled tick or the parent's end.
   */
  lemma {:induction false} EveryRunConserves(events: seq<Event>)
    ensures var s := Run(events);
            && Conserved(s)
            && OneLivePerKey(s)
            && (events != [] && (var last := events[|events| - 1]; last.ParentDone? || !last.enabled) ==>
                  forall c :: 0 <= c < |s.contexts| ==> c in s.cancelled)
  {
    if events != [] {
      EveryRunConserves(events[..|events| - 1]);
      var (s, last) := (Run(events[..|events| - 1]), events[|events| - 1]);
      hide Reconciled, Run;
      AfterConserves(s, last);
      StoppedConserves(s);
    }
    OneLive(Run(events));
  }

  lemma OneLive(s: Sup)
    requires Conserved(s)
    ensures OneLivePerKey(s)
  {
  }

  /** Contexts are only added and cancelling is final, from any moment of a run to its end. */
  lemma {:induction false} RunsGrow(events: seq<Event>, n: nat)
    requires n <= |events|
    ensures Grows(Run(events[..n]), Run(events))
  {
    if n == |events| {
      assert events[..n] == events;
    } else {
      var before := events[..|events| - 1];
      assert before[..n] == events[..n];
      RunsGrow(before, n);
      EveryRunConserves(before);
      AfterConserves(Run(before), events[|events| - 1]);
    }
  }
}
