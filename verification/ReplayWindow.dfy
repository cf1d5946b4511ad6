/**
 The replay window of one peer: what a receiver accepts, stated three times.

  - `Window` is the state the code keeps: highest sequence number and a 64-bit word.
  - `Session` is the set-level reference: everything accepted so far, and retired epochs.
  - `ByHistory` mentions no state at all, only the arrivals accepted earlier.

 `Represents` ties the first to the second, `HistoryDecides` the second to the third.
 */
module ReplayWindow {
  import opened Common

  // ---------- 64-bit words ----------

  /** A uint64 used as a bit set, least significant bit first. */
  type Word = w: seq<bool> | |w| == 64 witness seq(64, i => false)

  function EmptyWord(): Word { seq(64, i => false) }

  /** `w << d` on uint64: bits move up, the top d are lost, zeros enter below. */
  function ShiftLeft(w: Word, d: nat): Word
  {
    seq(64, i requires 0 <= i < 64 => d <= i && w[i - d])
  }

  /** `w | uint64(1) << d`, for d < 64. */
  function SetBit(w: Word, d: nat): Word
    requires d < 64
  {
    w[d := true]
  }

  // ---------- the set-level reference ----------

  const EPOCH_LENGTH := 32
  const MAX_RETIRED := 64
  const WIDTH := 64

  type Stamp = (string, uint64)

  datatype Arrival = Arrival(typ: string, epoch: string, seqno: uint64)

  /** Everything the receiver ever accepted from one peer, and its epochs. */
  datatype Session = Session(epoch: string, retired: set<string>, seen: set<Stamp>)

  const FRESH: Session := Session("", {}, {})

  /** Some accepted sequence number of the current epoch is 64 or more ahead. */
  ghost predicate LeftBehind(s: Session, seqno: uint64)
  {
    exists q: uint64 :: (s.epoch, q) in s.seen && q >= seqno + WIDTH
  }

  ghost predicate Accepts(s: Session, f: Arrival)
  {
    && |f.epoch| == EPOCH_LENGTH
    && f.seqno != 0
    && if f.epoch == s.epoch then
         (f.epoch, f.seqno) !in s.seen && !LeftBehind(s, f.seqno)
       else
         f.epoch !in s.retired && (s.epoch == "" || f.typ == "discover") && |s.retired| < MAX_RETIRED
  }

  ghost function Next(s: Session, f: Arrival): Session
  {
    if !Accepts(s, f) then s
    else
      var retired := if f.epoch == s.epoch || s.epoch == "" then s.retired else s.retired + {s.epoch};
      Session(f.epoch, retired, s.seen + {(f.epoch, f.seqno)})
  }

  ghost predicate Valid(s: Session)
  {
    && (forall e: string, q: uint64 :: (e, q) in s.seen ==>
        |e| == EPOCH_LENGTH && q != 0 && (e == s.epoch || e in s.retired))
    && s.epoch !in s.retired
    && |s.retired| <= MAX_RETIRED
    && (s.epoch == "" ==> s.retired == {} && s.seen == {})
    && (s.epoch != "" ==> |s.epoch| == EPOCH_LENGTH)
  }

  lemma NextValid(s: Session, f: Arrival)
    requires Valid(s)
    ensures Valid(Next(s, f))
    ensures Accepts(s, f) ==> (f.epoch, f.seqno) !in s.seen
  {
    if Accepts(s, f) && f.epoch != s.epoch && s.epoch != "" {
      assert |s.retired + {s.epoch}| == |s.retired| + 1;
    }
  }

  // ---------- the window the code keeps ----------

  datatype Window = Window(high: uint64, bitmap: Word)

  /** `high` is the greatest accepted number of the current epoch (0 if none), and bit i
      says whether high - i was accepted. */
  ghost predicate Represents(w: Window, s: Session)
  {
    && (w.high == 0 ==> forall q: uint64 :: (s.epoch, q) !in s.seen)
    && (w.high != 0 ==> (s.epoch, w.high) in s.seen && forall q: uint64 :: (s.epoch, q) in s.seen ==> q <= w.high)
    && forall i: nat :: i < WIDTH ==> (w.bitmap[i] <==> i < w.high && (s.epoch, w.high - i) in s.seen)
  }

  /** A number above `high` is new and never too far behind. */
  lemma AheadIsNew(w: Window, s: Session, seqno: uint64)
    requires Valid(s) && Represents(w, s) && seqno > w.high
    ensures (s.epoch, seqno) !in s.seen && !LeftBehind(s, seqno)
  {
  }

  /** Sliding the word up to a new `high` and marking it keeps the correspondence. */
  lemma SlideKeeps(w: Window, s: Session, f: Arrival, bitmap: Word)
    requires Valid(s) && Represents(w, s)
    requires f.epoch == s.epoch && |f.epoch| == EPOCH_LENGTH && f.seqno > w.high
    requires bitmap == if f.seqno - w.high >= WIDTH then EmptyWord() else ShiftLeft(w.bitmap, f.seqno - w.high)
    ensures Accepts(s, f)
    ensures Represents(Window(f.seqno, SetBit(bitmap, 0)), Next(s, f))
  {
    AheadIsNew(w, s, f.seqno);
    var d := f.seqno - w.high;
    var marked := SetBit(bitmap, 0);
    var s' := Next(s, f);
    forall i: nat | i < WIDTH
      ensures marked[i] <==> i < f.seqno && (s'.epoch, f.seqno - i) in s'.seen
    {
      if 0 < i && d <= i {
        assert f.seqno - i == w.high - (i - d);
      }
    }
  }

  /** Inside the word the bit decides, and marking it keeps the correspondence. */
  lemma MarkKeeps(w: Window, s: Session, f: Arrival)
    requires Valid(s) && Represents(w, s)
    requires f.epoch == s.epoch && |f.epoch| == EPOCH_LENGTH && f.seqno != 0 && f.seqno <= w.high
    ensures Accepts(s, f) <==> w.high - f.seqno < WIDTH && !w.bitmap[w.high - f.seqno]
    ensures Accepts(s, f) ==> Represents(Window(w.high, SetBit(w.bitmap, w.high - f.seqno)), Next(s, f))
  {
    var d := w.high - f.seqno;
    if d >= WIDTH {
      assert (s.epoch, w.high) in s.seen && w.high >= f.seqno + WIDTH;
    } else {
      assert !LeftBehind(s, f.seqno);
      assert w.bitmap[d] <==> (s.epoch, w.high - d) in s.seen;
    }
  }

  /** What the code does to `high` and the word for a frame of the current epoch. */
  function Slide(w: Window, seqno: uint64): (r: (bool, Window))
    requires seqno != 0
  {
    if seqno > w.high then
      (true, Window(seqno, SetBit(if seqno - w.high >= WIDTH then EmptyWord() else ShiftLeft(w.bitmap, seqno - w.high),
        0)))
    else if w.high - seqno >= WIDTH || w.bitmap[w.high - seqno] then
      (false, w)
    else
      (true, Window(w.high, SetBit(w.bitmap, w.high - seqno)))
  }

  /** Within an epoch the word decides exactly as the set of accepted numbers does. */
  lemma SlideRefines(w: Window, s: Session, f: Arrival)
    requires Valid(s) && Represents(w, s)
    requires f.epoch == s.epoch && |f.epoch| == EPOCH_LENGTH && f.seqno != 0
    ensures Slide(w, f.seqno).0 <==> Accepts(s, f)
    ensures Represents(Slide(w, f.seqno).1, Next(s, f))
  {
    if f.seqno > w.high {
      var delta := f.seqno - w.high;
      SlideKeeps(w, s, f, if delta >= WIDTH then EmptyWord() else ShiftLeft(w.bitmap, delta));
    } else {
      MarkKeeps(w, s, f);
    }
  }

  /** The session just after its epoch has been replaced by that of f. */
  ghost function Entered(s: Session, f: Arrival): Session
  {
    Session(f.epoch, if s.epoch == "" then s.retired else s.retired + {s.epoch}, s.seen)
  }

  /** A new epoch starts from the empty word. */
  lemma EpochStarts(s: Session, f: Arrival)
    requires Valid(s) && f.epoch != s.epoch && Accepts(s, f)
    ensures Valid(Entered(s, f)) && Represents(Window(0, EmptyWord()), Entered(s, f))
    ensures Next(Entered(s, f), f) == Next(s, f)
  {
    var s' := Entered(s, f);
    assert forall q: uint64 :: (s'.epoch, q) !in s.seen;
    NextValid(s, f);
  }

  // ---------- whole runs ----------

  /** The session after the first n arrivals. */
  ghost function After(arrivals: seq<Arrival>, n: nat): Session
    requires n <= |arrivals|
  {
    if n == 0 then FRESH else Next(After(arrivals, n - 1), arrivals[n - 1])
  }

  ghost predicate AcceptedAt(arrivals: seq<Arrival>, i: nat)
    requires i < |arrivals|
  {
    Accepts(After(arrivals, i), arrivals[i])
  }

  function StampOf(f: Arrival): Stamp { (f.epoch, f.seqno) }

  /** Retired epochs never exceed 64 and never include the current one, at any point of any run. */
  lemma {:induction false} RunValid(arrivals: seq<Arrival>, n: nat)
    requires n <= |arrivals|
    ensures Valid(After(arrivals, n))
  {
    if n != 0 {
      RunValid(arrivals, n - 1);
      NextValid(After(arrivals, n - 1), arrivals[n - 1]);
    }
  }

  ghost predicate StampBefore(arrivals: seq<Arrival>, n: nat, x: Stamp)
    requires n <= |arrivals|
  {
    exists i: nat :: i < n && AcceptedAt(arrivals, i) && StampOf(arrivals[i]) == x
  }

  lemma NextSeen(s: Session, f: Arrival, x: Stamp)
    ensures x in Next(s, f).seen <==> x in s.seen || (Accepts(s, f) && StampOf(f) == x)
  {
  }

  /** The session after n arrivals is exactly what the accepted ones among them say. */
  lemma {:induction false} SeenIsHistory(arrivals: seq<Arrival>, n: nat, x: Stamp)
    requires n <= |arrivals|
    ensures x in After(arrivals, n).seen <==> StampBefore(arrivals, n, x)
  {
    if n != 0 {
      SeenIsHistory(arrivals, n - 1, x);
      NextSeen(After(arrivals, n - 1), arrivals[n - 1], x);
      assert StampBefore(arrivals, n, x) <==>
          StampBefore(arrivals, n - 1, x) || (AcceptedAt(arrivals, n - 1) && StampOf(arrivals[n - 1]) == x);
    }
  }

  /** No (epoch, sequence) is ever accepted twice, whatever arrives and whatever epochs change. */
  lemma AtMostOnce(arrivals: seq<Arrival>, i: nat, j: nat)
    requires i < j < |arrivals|
    requires AcceptedAt(arrivals, i) && AcceptedAt(arrivals, j)
    ensures StampOf(arrivals[i]) != StampOf(arrivals[j])
  {
    RunValid(arrivals, j);
    NextValid(After(arrivals, j), arrivals[j]);
    SeenIsHistory(arrivals, j, StampOf(arrivals[i]));
  }

  // ---------- the same decision from history alone ----------

  /** Epochs of the arrivals accepted before n. */
  ghost function EpochsBefore(arrivals: seq<Arrival>, n: nat): set<string>
    requires n <= |arrivals|
  {
    if n == 0 then {}
    else if AcceptedAt(arrivals, n - 1) then EpochsBefore(arrivals, n - 1) + {arrivals[n - 1].epoch}
    else EpochsBefore(arrivals, n - 1)
  }

  /** Epoch of the last arrival accepted before n, "" when there is none. */
  ghost function LastEpoch(arrivals: seq<Arrival>, n: nat): string
    requires n <= |arrivals|
  {
    if n == 0 then "" else if AcceptedAt(arrivals, n - 1) then arrivals[n - 1].epoch else LastEpoch(arrivals, n - 1)
  }

  ghost predicate AcceptedBefore(arrivals: seq<Arrival>, n: nat, epoch: string, lo: int, hi: int)
    requires n <= |arrivals|
  {
    exists i: nat :: i < n && AcceptedAt(arrivals, i) && arrivals[i].epoch == epoch && lo <= arrivals[i].seqno < hi
  }

  ghost predicate ByHistory(arrivals: seq<Arrival>, n: nat)
    requires n < |arrivals|
  {
    var f := arrivals[n];
    var current := LastEpoch(arrivals, n);
    && |f.epoch| == EPOCH_LENGTH
    && f.seqno != 0
    && if f.epoch == current then
         && !AcceptedBefore(arrivals, n, f.epoch, f.seqno, f.seqno + 1)
         && !AcceptedBefore(arrivals, n, f.epoch, f.seqno + WIDTH, TWO_64)
       else
         && f.epoch !in EpochsBefore(arrivals, n)
         && (current == "" || f.typ == "discover")
         && |EpochsBefore(arrivals, n) - {current}| < MAX_RETIRED
  }

  /** The epochs a session remembers: the current one, and all others retired. */
  ghost predicate Remembers(s: Session, epochs: set<string>)
  {
    && s.retired == epochs - {s.epoch}
    && (s.epoch != "" ==> s.epoch in epochs)
    && "" !in epochs
  }

  lemma NextEpochs(s: Session, f: Arrival, epochs: set<string>)
    requires Remembers(s, epochs)
    ensures Remembers(Next(s, f), if Accepts(s, f) then epochs + {f.epoch} else epochs)
  {
  }

  lemma {:induction false} EpochsAreHistory(arrivals: seq<Arrival>, n: nat)
    requires n <= |arrivals|
    ensures Remembers(After(arrivals, n), EpochsBefore(arrivals, n))
  {
    if n != 0 {
      EpochsAreHistory(arrivals, n - 1);
      NextEpochs(After(arrivals, n - 1), arrivals[n - 1], EpochsBefore(arrivals, n - 1));
    }
  }

  lemma {:induction false} LastEpochIsCurrent(arrivals: seq<Arrival>, n: nat)
    requires n <= |arrivals|
    ensures After(arrivals, n).epoch == LastEpoch(arrivals, n)
  {
    if n != 0 {
      LastEpochIsCurrent(arrivals, n - 1);
    }
  }

  ghost predicate SeenWithin(s: Session, lo: int, hi: int)
  {
    exists q: uint64 :: (s.epoch, q) in s.seen && lo <= q < hi
  }

  lemma SeenBand(arrivals: seq<Arrival>, n: nat, lo: int, hi: int)
    requires n <= |arrivals|
    ensures SeenWithin(After(arrivals, n), lo, hi) <==> AcceptedBefore(arrivals, n, After(arrivals, n).epoch, lo, hi)
  {
    var s := After(arrivals, n);
    if SeenWithin(s, lo, hi) {
      var q: uint64 :| (s.epoch, q) in s.seen && lo <= q < hi;
      SeenIsHistory(arrivals, n, (s.epoch, q));
    }
    if AcceptedBefore(arrivals, n, s.epoch, lo, hi) {
      var i: nat :| i < n && AcceptedAt(arrivals, i) && arrivals[i].epoch == s.epoch && lo <= arrivals[i].seqno < hi;
      SeenIsHistory(arrivals, n, StampOf(arrivals[i]));
    }
  }

  lemma WithinDecides(s: Session, f: Arrival)
    requires Valid(s)
    ensures Accepts(s, f) <==>
            && |f.epoch| == EPOCH_LENGTH && f.seqno != 0
            && if f.epoch == s.epoch then !SeenWithin(s, f.seqno, f.seqno + 1)
            && !SeenWithin(s, f.seqno + WIDTH, TWO_64)
               else f.epoch !in s.retired && (s.epoch == "" || f.typ == "discover") && |s.retired| < MAX_RETIRED
  {
  }

  /** The code's window decides exactly as the accepted past dictates: nothing is accepted
      twice, and nothing fresh that is less than 64 behind is lost. */
  lemma HistoryDecides(arrivals: seq<Arrival>, n: nat)
    requires n < |arrivals|
    ensures AcceptedAt(arrivals, n) <==> ByHistory(arrivals, n)
  {
    var s, f := After(arrivals, n), arrivals[n];
    EpochsAreHistory(arrivals, n);
    LastEpochIsCurrent(arrivals, n);
    RunValid(arrivals, n);
    SeenBand(arrivals, n, f.seqno, f.seqno + 1);
    SeenBand(arrivals, n, f.seqno + WIDTH, TWO_64);
    WithinDecides(s, f);
  }

  // ---------- sender and receiver over a network that drops, repeats and reorders ----------

  /** The i-th frame of a sending session: the counter starts at 0 and is incremented first. */
  function SentSeqno(i: nat): uint64 { (i + 1) % TWO_64 }

  /** `sent[i]` are all frames of one sender, over sessions with fresh epochs. */
  datatype Sent = Sent(session: nat, index: nat, typ: string)

  function Wire(epochs: seq<string>, x: Sent): Arrival
    requires x.session < |epochs|
  {
    Arrival(x.typ, epochs[x.session], SentSeqno(x.index))
  }

  ghost predicate Deliveries(epochs: seq<string>, delivered: seq<Sent>)
  {
    && (forall i, j :: 0 <= i < j < |epochs| ==> epochs[i] != epochs[j])
    && (forall e :: e in epochs ==> |e| == EPOCH_LENGTH)
    && (forall k :: 0 <= k < |delivered| ==> delivered[k].session < |epochs|)
  }

  function Arrivals(epochs: seq<string>, delivered: seq<Sent>): seq<Arrival>
    requires forall k :: 0 <= k < |delivered| ==> delivered[k].session < |epochs|
  {
    seq(|delivered|, k requires 0 <= k < |delivered| => Wire(epochs, delivered[k]))
  }

  /** A frame that is sent once is accepted at most once, however often it is delivered. */
  lemma EndToEndAtMostOnce(epochs: seq<string>, delivered: seq<Sent>, i: nat, j: nat)
    requires Deliveries(epochs, delivered) && i < j < |delivered|
    requires AcceptedAt(Arrivals(epochs, delivered), i) && AcceptedAt(Arrivals(epochs, delivered), j)
    ensures (delivered[i].session, delivered[i].index) != (delivered[j].session, delivered[j].index)
  {
    AtMostOnce(Arrivals(epochs, delivered), i, j);
  }

  /** Until the 64-bit counter wraps, two frames of one sender never share a stamp. */
  lemma StampsDistinct(epochs: seq<string>, delivered: seq<Sent>, i: nat, j: nat)
    requires Deliveries(epochs, delivered) && i < |delivered| && j < |delivered|
    requires delivered[i].index < TWO_64 - 1 && delivered[j].index < TWO_64 - 1
    ensures StampOf(Wire(epochs, delivered[i])) == StampOf(Wire(epochs, delivered[j])) <==>
            (delivered[i].session, delivered[i].index) == (delivered[j].session, delivered[j].index)
    ensures epochs[delivered[i].session] == epochs[delivered[j].session] <==>
              delivered[i].session == delivered[j].session
  {
    var a, b := delivered[i].session, delivered[j].session;
    assert a != b ==> epochs[a] != epochs[b];
  }

  /** Nothing is lost to the window: a frame of the current session that was not accepted before is
      accepted on its next delivery, provided no frame 64 or more ahead of it came first. */
  lemma EndToEndNotLost(epochs: seq<string>, delivered: seq<Sent>, n: nat)
    requires Deliveries(epochs, delivered) && n < |delivered|
    requires forall k :: 0 <= k < |delivered| ==> delivered[k].index < TWO_64 - 1
    requires LastEpoch(Arrivals(epochs, delivered), n) == epochs[delivered[n].session]
    ensures AcceptedAt(Arrivals(epochs, delivered), n) <==>
            forall i: nat |
              i < n && AcceptedAt(Arrivals(epochs, delivered), i) && delivered[i].session == delivered[n].session ::
              delivered[i].index != delivered[n].index && delivered[i].index < delivered[n].index + WIDTH
  {
    var a := Arrivals(epochs, delivered);
    assert Tracks(a, delivered, n) by { ArrivalsTrack(epochs, delivered, n); }
    assert AcceptedAt(a, n) <==> ByHistory(a, n) by { HistoryDecides(a, n); }
    CurrentEpochDecides(a, n);
    BandsAreIndices(a, n, delivered);
  }

  /** Stamps and send positions say the same, relative to arrival n. */
  ghost predicate Tracks(a: seq<Arrival>, delivered: seq<Sent>, n: nat)
    requires n < |a| == |delivered|
  {
    forall i: nat :: i <= n ==>
      (a[i].epoch == a[n].epoch <==> delivered[i].session == delivered[n].session)
      && a[i].seqno == delivered[i].index + 1
  }

  lemma ArrivalsTrack(epochs: seq<string>, delivered: seq<Sent>, n: nat)
    requires Deliveries(epochs, delivered) && n < |delivered|
    requires forall k :: 0 <= k < |delivered| ==> delivered[k].index < TWO_64 - 1
    ensures Tracks(Arrivals(epochs, delivered), delivered, n)
  {
    forall i: nat | i <= n ensures epochs[delivered[i].session] == epochs[delivered[n].session] <==>
        delivered[i].session == delivered[n].session {
      StampsDistinct(epochs, delivered, i, n);
    }
  }

  lemma CurrentEpochDecides(a: seq<Arrival>, n: nat)
    requires n < |a| && a[n].epoch == LastEpoch(a, n) && |a[n].epoch| == EPOCH_LENGTH && a[n].seqno != 0
    ensures ByHistory(a, n) <==> !AcceptedBefore(a, n, a[n].epoch, a[n].seqno, a[n].seqno + 1)
                                 && !AcceptedBefore(a, n, a[n].epoch, a[n].seqno + WIDTH, TWO_64)
  {
  }

  lemma BandsAreIndices(a: seq<Arrival>, n: nat, delivered: seq<Sent>)
    requires n < |a| == |delivered|
    requires Tracks(a, delivered, n)
    ensures (!AcceptedBefore(a, n, a[n].epoch, a[n].seqno, a[n].seqno + 1)
            && !AcceptedBefore(a, n, a[n].epoch, a[n].seqno + WIDTH, TWO_64)) <==>
            forall i: nat :: i < n && AcceptedAt(a, i) && delivered[i].session == delivered[n].session ==>
              delivered[i].index != delivered[n].index && delivered[i].index < delivered[n].index + WIDTH
  {
    var f := a[n];
    if i: nat :| i < n && AcceptedAt(a, i) && delivered[i].session == delivered[n].session
                 && !(delivered[i].index != delivered[n].index && delivered[i].index < delivered[n].index + WIDTH)
    {
      assert AcceptedBefore(a, n, f.epoch, f.seqno, f.seqno + 1)
        || AcceptedBefore(a, n, f.epoch, f.seqno + WIDTH, TWO_64);
    }
  }

  // ---------- one peer over membership changes ----------

  /** What happens to one peer id: a frame arrives, or its state object is replaced by a fresh one because
      the peer was removed and added again, or its entry changed. */
  datatype Life = Comes(frame: Arrival) | Rebuilt

  ghost function Lived(life: seq<Life>, n: nat): Session
    requires n <= |life|
  {
    if n == 0 then FRESH
    else if life[n - 1].Rebuilt? then FRESH
    else Next(Lived(life, n - 1), life[n - 1].frame)
  }

  ghost predicate TakenAt(life: seq<Life>, n: nat)
    requires n < |life|
  {
    life[n].Comes? && Accepts(Lived(life, n), life[n].frame)
  }

  ghost predicate RebuiltBetween(life: seq<Life>, i: nat, j: nat)
    requires i < j <= |life|
  {
    exists k :: i < k < j && life[k].Rebuilt?
  }

  lemma {:induction false} LivedValid(life: seq<Life>, n: nat)
    requires n <= |life|
    ensures Valid(Lived(life, n))
  {
    if n != 0 && life[n - 1].Comes? {
      LivedValid(life, n - 1);
      NextValid(Lived(life, n - 1), life[n - 1].frame);
    }
  }

  lemma {:induction false} KeptInMind(life: seq<Life>, i: nat, j: nat)
    requires i < j <= |life| && TakenAt(life, i) && !RebuiltBetween(life, i, j)
    ensures StampOf(life[i].frame) in Lived(life, j).seen
    decreases j
  {
    if i < j - 1 {
      KeptInMind(life, i, j - 1);
      assert !life[j - 1].Rebuilt?;
    }
  }

  /** At most once, exactly as long as the object lives: a stamp can be accepted again only after the object
      was replaced in between. */
  lemma AtMostOncePerObject(life: seq<Life>, i: nat, j: nat)
    requires i < j < |life| && TakenAt(life, i) && TakenAt(life, j) && StampOf(life[i].frame) == StampOf(life[j].frame)
    ensures RebuiltBetween(life, i, j)
  {
    if !RebuiltBetween(life, i, j) {
      KeptInMind(life, i, j);
      LivedValid(life, j);
      NextValid(Lived(life, j), life[j].frame);
    }
  }

  /** And then it is: whatever was accepted from a peer, its replacement accepts as a first frame. */
  lemma RebuiltForgets(life: seq<Life>, i: nat)
    requires i < |life| && TakenAt(life, i)
    ensures TakenAt(life + [Rebuilt, Comes(life[i].frame)], |life| + 1)
  {
    var more := life + [Rebuilt, Comes(life[i].frame)];
    assert Lived(more, |life| + 1) == FRESH;
    assert !LeftBehind(FRESH, life[i].frame.seqno);
    assert |life[i].frame.epoch| == EPOCH_LENGTH;
  }
}
