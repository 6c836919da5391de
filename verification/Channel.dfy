/** A channel: its circular buffer, and the blocking readers and writers on it. */
module Channel {

  type byte = x: int | 0 <= x < 256

  lemma Wrapped(x: nat, n: nat)
    requires n > 0 && x < 2 * n
    ensures x % n == if x < n then x else x - n
  {
  }

  class Ring {
    const buf: array<byte>
    var begin: nat   // buf_use_begin
    var used: nat    // buf_used

    ghost predicate Valid()
      reads this
    {
      0 < buf.Length && begin < buf.Length && used <= buf.Length
    }

    /** The byte `i` places after the first one in use. */
    ghost function At(i: nat): byte
      requires Valid() && i < buf.Length
      reads this, buf
    {
      if begin + i < buf.Length then buf[begin + i] else buf[begin + i - buf.Length]
    }

    /** The bytes in use, oldest first. */
    ghost function Contents(): seq<byte>
      requires Valid()
      reads this, buf
    {
      seq(used, i requires 0 <= i < used && Valid() reads this, buf => At(i))
    }

    constructor (size: nat)
      requires size > 0
      ensures Valid() && Contents() == [] && buf.Length == size && fresh(buf)
    {
      buf := new byte[size](i => 0);
      begin, used := 0, 0;
    }

    /** The part of channel_read under the lock: as many bytes as there are, up to `len`. */
    method Take(len: nat) returns (out: seq<byte>)
      requires Valid()
      modifies this`begin, this`used
      ensures Valid()
      ensures var n := if old(used) < len then old(used) else len;
              out == old(Contents())[..n] && Contents() == old(Contents())[n..]
    {
      var n := if used < len then used else len;
      out := CopyOut(n);
      Drop(n);
    }

    /** The two memcpy of channel_read. */
    method CopyOut(n: nat) returns (out: seq<byte>)
      requires Valid() && n <= used
      ensures out == Contents()[..n]
    {
      var len0, len1 := n, 0;
      if begin + n > buf.Length {
        len0 := buf.Length - begin;
        len1 := n - len0;
      }
      out := buf[begin..begin + len0] + buf[..len1];
      assert forall i :: 0 <= i < n ==> out[i] == At(i);
    }

    /** The bytes copied leave the ring. */
    method Drop(n: nat)
      requires Valid() && n <= used
      modifies this`begin, this`used
      ensures Valid() && Contents() == old(Contents())[n..]
    {
      ghost var rest := Contents()[n..];
      Wrapped(begin + n, buf.Length);
      begin := (begin + n) % buf.Length;
      used := used - n;
      assert forall i :: 0 <= i < used ==> At(i) == rest[i];
      if used == 0 { begin := 0; }
      assert Contents() == rest;
    }

    method Memcpy(at: nat, data: seq<byte>)
      requires at + |data| <= buf.Length
      modifies buf
      ensures forall i :: 0 <= i < buf.Length ==> buf[i] == if at <= i < at + |data| then data[i - at] else old(buf[i])
    {
      forall k | 0 <= k < |data| { buf[at + k] := data[k]; }
    }

    /** The part of channel_write under the lock: as many bytes as there is room for. */
    method Put(data: seq<byte>) returns (n: nat)
      requires Valid()
      modifies this`used, buf
      ensures Valid() && n == if |data| < buf.Length - old(used) then |data| else buf.Length - old(used)
      ensures Contents() == old(Contents()) + data[..n]
    {
      n := if used + |data| > buf.Length then buf.Length - used else |data|;
      ghost var was := Contents();
      CopyIn(data[..n]);
      used := used + n;
      forall i | 0 <= i < used ensures At(i) == if i < |was| then was[i] else data[..n][i - |was|] {}
      assert Contents() == was + data[..n];
    }

    /** The memcpy of channel_write: the bytes go after those in use. */
    method CopyIn(data: seq<byte>)
      requires Valid() && used + |data| <= buf.Length
      modifies buf
      ensures forall i :: 0 <= i < used ==> At(i) == old(At(i))
      ensures forall i :: used <= i < used + |data| ==> At(i) == data[i - used]
    {
      if begin + used >= buf.Length {
        Memcpy(begin + used - buf.Length, data);
      } else {
        var len0, len1 := |data|, 0;
        if begin + used + |data| > buf.Length {
          len0 := buf.Length - begin - used;
          len1 := |data| - len0;
        }
        Memcpy(begin + used, data[..len0]);
        if len1 != 0 { Memcpy(0, data[len0..]); }
      }
    }
  }

  // ----- blocking readers and writers -----

  /** A call in progress: `done` of its `size` bytes have been read, or written from `data`. */
  datatype Call = Call(reading: bool, size: nat, data: seq<byte>, done: nat, blocking: bool, asleep: bool, ended: bool)

  /** A ring, the calls on it, and all the bytes ever written to it and read from it. */
  datatype State = State(ring: seq<byte>, calls: map<nat, Call>, sent: seq<byte>, received: seq<byte>)

  function Least(a: nat, b: nat): nat {
    if a < b then a else b
  }

  /** A sleeper goes on, and looks first whether it has all it asked for. */
  function Woke(c: Call): Call {
    if c.asleep then c.(asleep := false, ended := c.done >= c.size) else c
  }

  /** resume_on: whoever sleeps on the channel wakes. */
  function Woken(calls: map<nat, Call>): map<nat, Call> {
    map t | t in calls :: Woke(calls[t])
  }

  /** A pass of the loop that moved `n` bytes. */
  function Passed(c: Call, n: nat): Call {
    c.(done := c.done + n, ended := !c.blocking || c.done + n >= c.size)
  }

  /** A pass of the loop that moved nothing: a blocking call goes to sleep. */
  function Idle(c: Call): Call {
    if c.blocking then c.(asleep := true) else Passed(c, 0)
  }

  predicate Active(s: State, t: nat) {
    t in s.calls && !s.calls[t].asleep && !s.calls[t].ended && s.calls[t].done <= s.calls[t].size
  }

  /** One pass of the loop of `channel_read`: the section under the lock, with the
      decision to sleep, is one step. */
  predicate ReadStep(s: State, t: nat, s': State) {
    && Active(s, t) && s.calls[t].reading
    && var c := s.calls[t];
       var n := Least(|s.ring|, c.size - c.done);
       s' == if n > 0 then State(s.ring[n..], Woken(s.calls)[t := Passed(c, n)], s.sent, s.received + s.ring[..n])
             else s.(calls := s.calls[t := Idle(c)])
  }

  /** One pass of the loop of `channel_write`, on a ring of `room` bytes. */
  predicate WriteStep(room: nat, s: State, t: nat, s': State) {
    && Active(s, t) && !s.calls[t].reading && |s.ring| <= room && |s.calls[t].data| == s.calls[t].size
    && var c := s.calls[t];
       var data := c.data[c.done..];
       var n := Least(room - |s.ring|, |data|);
       s' == if n > 0 then State(s.ring + data[..n], Woken(s.calls)[t := Passed(c, n)], s.sent + data[..n], s.received)
             else s.(calls := s.calls[t := Idle(c)])
  }

  /** A call reaches the channel only when it asks for something: `file_read` and
      `file_write` return at once for a length of 0. */
  predicate BeginStep(s: State, t: nat, c: Call, s': State) {
    && t !in s.calls && c.size > 0 && c.done == 0 && (!c.reading ==> |c.data| == c.size) && !c.asleep && !c.ended
    && s' == s.(calls := s.calls[t := c])
  }

  datatype Event = Began(t: nat, c: Call) | Read(t: nat) | Wrote(t: nat)

  predicate Step(room: nat, s: State, e: Event, s': State) {
    match e
    case Began(t, c) => BeginStep(s, t, c, s')
    case Read(t) => ReadStep(s, t, s')
    case Wrote(t) => WriteStep(room, s, t, s')
  }

  ghost predicate Run(room: nat, states: seq<State>, events: seq<Event>) {
    && |states| == |events| + 1 && states[0] == State([], map[], [], [])
    && forall k :: 0 <= k < |events| ==> Step(room, states[k], events[k], states[k + 1])
  }

  /** Bytes come out in the order they went in; a reader sleeps only on an empty ring,
      a writer only on a full one; a blocking call ends only with all it asked for. */
  ghost predicate Inv(room: nat, s: State) {
    && s.received + s.ring == s.sent && |s.ring| <= room
    && forall t :: t in s.calls ==> SleepsRight(room, s.ring, s.calls[t])
  }

  predicate SleepsRight(room: nat, ring: seq<byte>, c: Call) {
    && c.done <= c.size && (!c.reading ==> |c.data| == c.size)
    && (c.asleep ==> c.blocking && c.done < c.size && if c.reading then ring == [] else |ring| == room)
    && (c.ended && c.blocking ==> c.done == c.size)
    && (!c.ended ==> c.done < c.size)
  }

  lemma StepKeeps(room: nat, s: State, e: Event, s': State)
    requires Inv(room, s) && Step(room, s, e, s') && room > 0
    ensures Inv(room, s')
  {
    match e
    case Began(t, c) => assert forall u :: u in s'.calls && u != t ==> SleepsRight(room, s.ring, s.calls[u]);
    case Read(t) => ReadKeeps(room, s, t, s');
    case Wrote(t) => WriteKeeps(room, s, t, s');
  }

  lemma ReadKeeps(room: nat, s: State, t: nat, s': State)
    requires Inv(room, s) && ReadStep(s, t, s') && room > 0
    ensures Inv(room, s')
  {
    var c := s.calls[t];
    var n := Least(|s.ring|, c.size - c.done);
    if n > 0 { assert s.received + s.ring[..n] + s.ring[n..] == s.received + s.ring; }
    forall u | u in s'.calls ensures SleepsRight(room, s'.ring, s'.calls[u]) {
      assert SleepsRight(room, s.ring, s.calls[u]);
    }
  }

  lemma WriteKeeps(room: nat, s: State, t: nat, s': State)
    requires Inv(room, s) && WriteStep(room, s, t, s') && room > 0
    ensures Inv(room, s')
  {
    var c := s.calls[t];
    var n := Least(room - |s.ring|, c.size - c.done);
    if n > 0 { assert s.received + (s.ring + c.data[c.done..][..n]) == s.received + s.ring + c.data[c.done..][..n]; }
    forall u | u in s'.calls ensures SleepsRight(room, s'.ring, s'.calls[u]) {
      assert SleepsRight(room, s.ring, s.calls[u]);
    }
  }

  /** In every run: first in, first out, and no wakeup is lost. */
  lemma {:induction false} RunInv(room: nat, states: seq<State>, events: seq<Event>, k: nat)
    requires Run(room, states, events) && k < |states| && room > 0
    ensures Inv(room, states[k])
  {
    hide Inv, Step;
    if k == 0 {
      StartInv(room);
    } else {
      RunInv(room, states, events, k - 1);
      assert Step(room, states[k - 1], events[k - 1], states[k]);
      StepKeeps(room, states[k - 1], events[k - 1], states[k]);
    }
  }

  lemma StartInv(room: nat)
    ensures Inv(room, State([], map[], [], []))
  {
  }

  /** A reader and a writer never both sleep. */
  lemma NeverBothAsleep(room: nat, states: seq<State>, events: seq<Event>, k: nat, r: nat, w: nat)
    requires Run(room, states, events) && k < |states| && room > 0
    requires r in states[k].calls && w in states[k].calls && states[k].calls[r].reading && !states[k].calls[w].reading
    ensures !(states[k].calls[r].asleep && states[k].calls[w].asleep)
  {
    RunInv(room, states, events, k);
    assert SleepsRight(room, states[k].ring, states[k].calls[r]) && SleepsRight(room, states[k].ring, states[k].calls[w]);
  }

  /** In every state of every run, whatever the pass: a read goes to sleep exactly when
      it is a blocking one and the ring is empty ... */
  lemma SleepExactly(room: nat, states: seq<State>, events: seq<Event>, k: nat, t: nat)
    requires Run(room, states, events) && k < |events| && room > 0 && events[k] == Read(t)
    ensures t in states[k].calls && t in states[k + 1].calls
    ensures states[k + 1].calls[t].asleep <==> states[k].calls[t].blocking && states[k].ring == []
  {
    hide Inv;
    RunInv(room, states, events, k);
    assert Step(room, states[k], events[k], states[k + 1]);
    RightCall(room, states[k], t);
  }

  /** ... and a write exactly when it is a blocking one and the ring is full. */
  lemma WriteSleepExactly(room: nat, states: seq<State>, events: seq<Event>, k: nat, t: nat)
    requires Run(room, states, events) && k < |events| && room > 0 && events[k] == Wrote(t)
    ensures t in states[k].calls && t in states[k + 1].calls
    ensures states[k + 1].calls[t].asleep <==> states[k].calls[t].blocking && |states[k].ring| == room
  {
    hide Inv;
    RunInv(room, states, events, k);
    assert Step(room, states[k], events[k], states[k + 1]);
    RightCall(room, states[k], t);
  }

  /** What one pass makes of the calls: `n` more bytes for `t`, which ends exactly when
      it has all it asked for or does not block; when bytes have moved, whoever sleeps
      wakes; nothing else changes. */
  ghost predicate PassOf(calls: map<nat, Call>, t: nat, n: nat, calls': map<nat, Call>) {
    && t in calls && calls'.Keys == calls.Keys
    && calls'[t] == calls[t].(done := calls[t].done + n, ended := !calls[t].blocking || calls[t].done + n == calls[t].size,
                              asleep := calls[t].blocking && n == 0)
    && forall u :: u in calls && u != t ==> calls'[u] == calls[u].(asleep := calls[u].asleep && n == 0)
  }

  /** In every run, a pass of a read moves the oldest bytes of the ring, as many as
      there are or as are still wanted. */
  lemma ReadMoves(room: nat, states: seq<State>, events: seq<Event>, k: nat, t: nat) returns (n: nat)
    requires Run(room, states, events) && k < |events| && room > 0 && events[k] == Read(t)
    ensures var s, s' := states[k], states[k + 1];
      && t in s.calls && n <= |s.ring| && n <= s.calls[t].size - s.calls[t].done
      && (n == |s.ring| || n == s.calls[t].size - s.calls[t].done)
      && s'.ring == s.ring[n..] && s'.received == s.received + s.ring[..n] && s'.sent == s.sent
      && PassOf(s.calls, t, n, s'.calls)
  {
    hide Inv;
    RunInv(room, states, events, k);
    assert Step(room, states[k], events[k], states[k + 1]);
    RightCalls(room, states[k]);
    n := states[k + 1].calls[t].done - states[k].calls[t].done;
  }

  /** ... and a pass of a write the first of its bytes that are left, as many as there
      are or as there is room for. */
  lemma WriteMoves(room: nat, states: seq<State>, events: seq<Event>, k: nat, t: nat) returns (n: nat)
    requires Run(room, states, events) && k < |events| && room > 0 && events[k] == Wrote(t)
    ensures var s, s' := states[k], states[k + 1];
      && t in s.calls && |s.calls[t].data| == s.calls[t].size && s.calls[t].done <= s.calls[t].size && |s.ring| <= room
      && n <= room - |s.ring| && n <= s.calls[t].size - s.calls[t].done
      && (n == room - |s.ring| || n == s.calls[t].size - s.calls[t].done)
      && s'.ring == s.ring + s.calls[t].data[s.calls[t].done..s.calls[t].done + n]
      && s'.sent == s.sent + s.calls[t].data[s.calls[t].done..s.calls[t].done + n] && s'.received == s.received
      && PassOf(s.calls, t, n, s'.calls)
  {
    hide Inv;
    RunInv(room, states, events, k);
    assert Step(room, states[k], events[k], states[k + 1]);
    RightCalls(room, states[k]);
    var c := states[k].calls[t];
    n := states[k + 1].calls[t].done - c.done;
    assert c.data[c.done..][..n] == c.data[c.done..c.done + n];
  }

  lemma RightCalls(room: nat, s: State)
    requires Inv(room, s)
    ensures forall t :: t in s.calls ==> SleepsRight(room, s.ring, s.calls[t])
  {
  }

  lemma RightCall(room: nat, s: State, t: nat)
    requires Inv(room, s) && t in s.calls
    ensures SleepsRight(room, s.ring, s.calls[t])
  {
  }

  // ----- the calls on the ring itself -----

  class Pipe {
    const ring: Ring
    var calls: map<nat, Call>
    ghost var sent: seq<byte>
    ghost var received: seq<byte>

    ghost function View(): State
      requires ring.Valid()
      reads this, ring, ring.buf
    {
      State(ring.Contents(), calls, sent, received)
    }

    constructor (size: nat)
      requires size > 0
      ensures ring.Valid() && ring.buf.Length == size && View() == State([], map[], [], []) && fresh(ring) && fresh(ring.buf)
    {
      ring := new Ring(size);
      calls, sent, received := map[], [], [];
    }

    method Begin(t: nat, c: Call)
      requires ring.Valid() && t !in calls
      requires c.size > 0 && c.done == 0 && (!c.reading ==> |c.data| == c.size) && !c.asleep && !c.ended
      modifies this`calls
      ensures BeginStep(old(View()), t, c, View())
    {
      calls := calls[t := c];
    }

    /** One pass of `channel_read`. */
    method ReadPass(t: nat) returns (out: seq<byte>)
      requires ring.Valid() && Active(View(), t) && calls[t].reading
      modifies this`calls, this`received, ring`begin, ring`used
      ensures ring.Valid() && ReadStep(old(View()), t, View()) && received == old(received) + out
    {
      var c := calls[t];
      var len := Least(ring.used, c.size - c.done);
      if len > 0 {
        out := ring.Take(len);
        calls := Woken(calls)[t := Passed(c, len)];
        received := received + out;
      } else {
        out := [];
        calls := calls[t := Idle(c)];
        assert received == old(received) + out;
      }
    }

    /** One pass of `channel_write`. */
    method WritePass(t: nat)
      requires ring.Valid() && Active(View(), t) && !calls[t].reading && |calls[t].data| == calls[t].size
      modifies this`calls, this`sent, ring`used, ring.buf
      ensures ring.Valid() && WriteStep(ring.buf.Length, old(View()), t, View())
    {
      var c := calls[t];
      var data := c.data[c.done..];
      var len := Least(ring.buf.Length - ring.used, |data|);
      if len > 0 {
        var n := ring.Put(data);
        calls := Woken(calls)[t := Passed(c, n)];
        sent := sent + data[..n];
      } else {
        calls := calls[t := Idle(c)];
      }
    }
  }
}
