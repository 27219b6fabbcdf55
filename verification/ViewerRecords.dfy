/** What the viewer makes of the records of one worker. */
module ViewerRecords {
  import opened Options
  import opened Bytes
  import opened Game
  import R = GameRecords
  import G = GameHost
  import V = ViewerFrames

  /** Later worlds of a match have the same names and a clock no smaller. */
  lemma LaterWorld(w: World, events: seq<Event>, slot: Slot)
    requires Inv(w)
    ensures var w' := Run(w, events);
            && Inv(w') && w'.match_ == w.match_ && w.tick <= w'.tick
            && w'.players[slot].session == w.players[slot].session
  {
    RunIsPaced(w, events, slot);
    NamesKept(w, events);
  }

  /** A viewer shows the record of `u`, and after it that of `v` if and only if the sequence
      of `v` is no smaller. */
  ghost predicate ShownInTurn(u: R.View, v: R.View) {
    && R.InRange(u) && R.InRange(v)
    && V.Message(V.Nothing, R.EncodeView(u)) == Some(V.Showing(u))
    && (V.Message(V.Showing(u), R.EncodeView(v)).Some? <==> u.sequence <= v.sequence)
  }

  lemma ShownTogether(u: R.View, v: R.View)
    requires R.InRange(u) && R.InRange(v)
    requires v.match_ == u.match_ && v.session == u.session && v.slot == u.slot && u.tick <= v.tick
    ensures ShownInTurn(u, v)
  {
    R.ViewRoundTrip(u);
    R.ViewRoundTrip(v);
  }

  /** Of two records of one match for one slot, the later is shown after the earlier if and
      only if its sequence is no smaller: nothing else about it can put the viewer off. */
  lemma LaterRecordShown(w: World, events: seq<Event>, slot: Slot, first: u32, second: u32, before: Result, after: Result)
    requires Inv(w)
    ensures Inv(Run(w, events))
    ensures ShownInTurn(R.ViewOf(w, slot, first, before), R.ViewOf(Run(w, events), slot, second, after))
  {
    LaterWorld(w, events, slot);
    R.ViewShows(w, slot, first, before);
    R.ViewShows(Run(w, events), slot, second, after);
    ShownTogether(R.ViewOf(w, slot, first, before), R.ViewOf(Run(w, events), slot, second, after));
  }

  /** In a run of the worker: a record it writes later for the same slot is shown exactly when
      its sequence is no smaller. */
  lemma WorkerRecordsShown(w: World, commands: seq<G.Command>, slot: Slot, first: u32, second: u32, before: Result, after: Result)
    requires Inv(w) && G.RunHost(G.Waiting(w), commands).Waiting?
    ensures var w' := G.RunHost(G.Waiting(w), commands).world;
            Inv(w') && ShownInTurn(R.ViewOf(w, slot, first, before), R.ViewOf(w', slot, second, after))
  {
    G.HostRunsMatches(w, commands);
    LaterRecordShown(w, G.EventsOf(w, commands), slot, first, second, before, after);
  }

  /** The packets the viewer takes at all: a record both decoders accept that follows the one
      shown, or the notice that the match has not begun. */
  lemma MessageExactly(shown: V.Shown, packet: seq<byte>)
    ensures V.Message(shown, packet).Some? <==>
            || packet == [0x4C, 0x47, 0x52, 0x45, 7]
            || (&& R.DecodeView(packet).Some?
                && var v := R.DecodeView(packet).value;
                   shown.Showing? ==>
                     && v.match_ == shown.view.match_ && v.session == shown.view.session && v.slot == shown.view.slot
                     && v.tick >= shown.view.tick && v.sequence >= shown.view.sequence)
    ensures packet == [0x4C, 0x47, 0x52, 0x45, 7] ==> V.Message(shown, packet) == Some(shown)
    ensures V.Message(shown, packet).Some? && |packet| == 80 ==>
              V.Message(shown, packet) == Some(V.Showing(R.DecodeView(packet).value))
  {
    if |packet| == 5 {
      assert packet == packet[..4] + [packet[4]];
    }
  }
}
