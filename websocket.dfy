/** The real-time event channel of useEmsgWebSocket.ts, driven by discrete
    events: the React effect running and being cleaned up, the transport's
    open/close/error/message callbacks, the reconnect timer firing, and the
    caller's `send`.

    Every run of the effect has its own closure: its `url`, its own
    `reconnectTimeout` variable and its own `connect`. Every socket keeps the
    handlers of the run that created it for as long as it lives, because the
    cleanup never detaches them. The hook-level state (`status` and
    `wsRef.current`) is shared by all runs. */
module EmsgWebSocket {
  import opened JsValues

  /** The hook's `status`. */
  datatype Status = Connecting | Open | Closed | Error

  /** The `readyState` of a browser socket. */
  datatype ReadyState = CONNECTING | OPEN | CLOSING | CLOSED

  /** A socket `connect` created: the url it was opened on, the effect run
      whose closures are its handlers, its readiness, and the frames written
      to it by `send`. */
  datatype Socket = Socket(url: string, run: nat, ready: ReadyState, written: seq<string>)

  /** A timer `onclose` set: the effect run whose `connect` it calls, and its
      delay in milliseconds. */
  datatype Timer = Timer(run: nat, delay: nat)

  /** One run of the effect: the `url` it captured and its `reconnectTimeout`
      variable (the id of the last timer its `onclose` set). */
  datatype EffectRun = EffectRun(url: string, reconnectTimeout: Option<nat>)

  /** The delay of every reconnect, in milliseconds. */
  const ReconnectDelay := 2000

  /** `ws.close()`: a connecting or open socket starts closing; on a socket
      already closing or closed it does nothing. */
  function CloseRequested(s: Socket): Socket
  {
    if s.ready == CONNECTING || s.ready == OPEN then s.(ready := CLOSING) else s
  }

  /** The set holding the timer id in `slot`, if any. */
  function SlotIds(slot: Option<nat>): set<nat>
  {
    if slot.Some? then {slot.value} else {}
  }

  class Hook {
    /** `JSON.parse` (None where it throws) and `JSON.stringify`. */
    const parse: string -> Option<Json>
    const stringify: Json -> string

    var status: Status
    /** `wsRef.current`: an index into `sockets`. */
    var current: Option<nat>
    /** Every socket ever created, indexed by creation order. */
    var sockets: seq<Socket>
    /** Every run of the effect; the last one is the one React knows of. */
    var runs: seq<EffectRun>
    /** The last run's cleanup has not run yet. */
    var effectLive: bool
    /** Every timer ever set, indexed by id, and the ids not yet fired or cleared. */
    var timers: seq<Timer>
    var pending: set<nat>
    /** The values handed to the caller's `onMessage`, in order. */
    ghost var delivered: seq<Json>

    /** The hook's invariant. `wsRef.current` is always the newest socket;
        every socket and timer belongs to an existing run; a pending timer is
        the one its run's `reconnectTimeout` holds; and each run has at most
        one live socket, and never a live socket and a pending reconnect at
        once. */
    ghost predicate Valid()
      reads this
    {
      && current == (if |sockets| == 0 then None else Some(|sockets| - 1))
      && (effectLive ==> |runs| > 0)
      && (forall s :: 0 <= s < |sockets| ==>
            sockets[s].run < |runs| && sockets[s].url == runs[sockets[s].run].url)
      && (forall t :: 0 <= t < |timers| ==>
            timers[t].run < |runs| && timers[t].delay == ReconnectDelay)
      && (forall t :: t in pending ==>
            t < |timers| && runs[timers[t].run].reconnectTimeout == Some(t))
      && (forall s1, s2 ::
            (0 <= s1 < |sockets| && 0 <= s2 < |sockets|
             && sockets[s1].ready != CLOSED && sockets[s2].ready != CLOSED
             && sockets[s1].run == sockets[s2].run) ==> s1 == s2)
      && (forall s, t :: 0 <= s < |sockets| && sockets[s].ready != CLOSED && t in pending ==>
            timers[t].run != sockets[s].run)
    }

    /** Run `r` has neither a live socket nor a pending reconnect. */
    ghost predicate Idle(r: nat)
      reads this
    {
      && (forall s :: 0 <= s < |sockets| && sockets[s].run == r ==> sockets[s].ready == CLOSED)
      && (forall t :: t in pending ==> t < |timers| && timers[t].run != r)
    }

    /** The hook before its effect first runs: status `connecting`, no socket. */
    constructor (parse: string -> Option<Json>, stringify: Json -> string)
      ensures this.parse == parse && this.stringify == stringify
      ensures status == Connecting && current == None
      ensures sockets == [] && runs == [] && timers == [] && pending == {}
      ensures !effectLive && delivered == []
      ensures Valid()
    {
      this.parse := parse;
      this.stringify := stringify;
      status := Connecting;
      current := None;
      sockets, runs, timers, pending := [], [], [], {};
      effectLive := false;
      delivered := [];
    }

    /** `connect()` of run `r`: a new socket on the run's url becomes
        `wsRef.current` and the status is `connecting` again. */
    method Connect(r: nat)
      requires Valid() && r < |runs| && Idle(r)
      modifies this`sockets, this`current, this`status
      ensures Valid()
      ensures sockets == old(sockets) + [Socket(runs[r].url, r, CONNECTING, [])]
      ensures current == Some(|sockets| - 1)
      ensures status == Connecting
    {
      sockets := sockets + [Socket(runs[r].url, r, CONNECTING, [])];
      current := Some(|sockets| - 1);
      status := Connecting;
    }

    /** The effect runs (on mount, and again after each `url` change): a
        fresh closure whose `reconnectTimeout` is null calls `connect`. */
    method RunEffect(url: string)
      requires Valid() && !effectLive
      modifies this
      ensures Valid() && effectLive
      ensures runs == old(runs) + [EffectRun(url, None)]
      ensures sockets == old(sockets) + [Socket(url, |old(runs)|, CONNECTING, [])]
      ensures current == Some(|sockets| - 1) && status == Connecting
      ensures timers == old(timers) && pending == old(pending) && delivered == old(delivered)
    {
      runs := runs + [EffectRun(url, None)];
      effectLive := true;
      Connect(|runs| - 1);
    }

    /** The effect's cleanup: it asks `wsRef.current` to close and clears the
        one timer its own `reconnectTimeout` holds. No handler is detached
        and no other run's timer is touched. Afterwards the torn-down run has
        no pending reconnect. */
    method Teardown()
      requires Valid() && effectLive
      modifies this`effectLive, this`sockets, this`pending
      ensures Valid() && !effectLive
      ensures sockets == if old(current).Some?
                         then old(sockets)[old(current).value := CloseRequested(old(sockets)[old(current).value])]
                         else old(sockets)
      ensures pending == old(pending) - SlotIds(old(runs)[|old(runs)| - 1].reconnectTimeout)
      ensures forall t :: t in pending ==> timers[t].run != |runs| - 1
    {
      effectLive := false;
      var slot := runs[|runs| - 1].reconnectTimeout;
      if slot.Some? {
        ClearTimeout(slot.value);
      }
      forall t | t in pending ensures timers[t].run != |runs| - 1 {
        assert runs[timers[t].run].reconnectTimeout == Some(t) && Some(t) != slot;
      }
      if current.Some? {
        CloseSocket(current.value);
      }
    }

    /** `ws.close()` on socket `c`: it starts closing if it was connecting or
        open; its handlers stay attached. */
    method CloseSocket(c: nat)
      requires Valid() && c < |sockets|
      modifies this`sockets
      ensures Valid()
      ensures sockets == old(sockets)[c := CloseRequested(old(sockets)[c])]
    {
      sockets := sockets[c := CloseRequested(sockets[c])];
      assert forall s :: 0 <= s < |sockets| ==> sockets[s].run == old(sockets)[s].run;
      assert forall s :: 0 <= s < |sockets| && sockets[s].ready != CLOSED ==> old(sockets)[s].ready != CLOSED;
    }

    /** `clearTimeout(t)`: timer `t` will not fire; a timer that already fired
        or was cleared is left as it is. */
    method ClearTimeout(t: nat)
      requires Valid()
      modifies this`pending
      ensures Valid()
      ensures pending == old(pending) - {t}
    {
      pending := pending - {t};
    }

    /** A new `url`: React cleans up the running effect and runs it again. */
    method ChangeUrl(url: string)
      requires Valid() && effectLive
      modifies this
      ensures Valid() && effectLive
      ensures runs == old(runs) + [EffectRun(url, None)]
      ensures |sockets| == |old(sockets)| + 1
      ensures sockets[..|old(sockets)|] ==
        if old(current).Some?
        then old(sockets)[old(current).value := CloseRequested(old(sockets)[old(current).value])]
        else old(sockets)
      ensures sockets[|old(sockets)|] == Socket(url, |old(runs)|, CONNECTING, [])
      ensures current == Some(|sockets| - 1) && status == Connecting
      ensures pending == old(pending) - SlotIds(old(runs)[|old(runs)| - 1].reconnectTimeout)
      ensures timers == old(timers) && delivered == old(delivered)
    {
      Teardown();
      RunEffect(url);
    }

    /** `onopen` of socket `s`: the status becomes `open`, whichever run the
        socket belongs to; nothing else changes. */
    method OnOpen(s: nat)
      requires Valid() && s < |sockets| && sockets[s].ready == CONNECTING
      modifies this`sockets, this`status
      ensures Valid()
      ensures status == Open
      ensures sockets == old(sockets)[s := old(sockets)[s].(ready := OPEN)]
    {
      sockets := sockets[s := sockets[s].(ready := OPEN)];
      status := Open;
    }

    /** `onclose` of socket `s`, which fires once per socket, also after the
        cleanup: the status becomes `closed` and exactly one reconnect with
        delay 2000 is scheduled for the socket's own run, whose
        `reconnectTimeout` now holds it. */
    method OnClose(s: nat)
      requires Valid() && s < |sockets| && sockets[s].ready != CLOSED
      modifies this`sockets, this`status, this`timers, this`pending, this`runs
      ensures Valid()
      ensures status == Closed
      ensures sockets == old(sockets)[s := old(sockets)[s].(ready := CLOSED)]
      ensures timers == old(timers) + [Timer(old(sockets)[s].run, ReconnectDelay)]
      ensures pending == old(pending) + {|old(timers)|}
      ensures runs == old(runs)[old(sockets)[s].run := EffectRun(old(runs)[old(sockets)[s].run].url, Some(|old(timers)|))]
    {
      var r := sockets[s].run;
      sockets := sockets[s := sockets[s].(ready := CLOSED)];
      status := Closed;
      var t := |timers|;
      timers := timers + [Timer(r, ReconnectDelay)];
      pending := pending + {t};
      runs := runs[r := runs[r].(reconnectTimeout := Some(t))];
    }

    /** `onerror` of socket `s`: the status becomes `error`; no reconnect is
        scheduled (only the close event that follows does that). */
    method OnError(s: nat)
      requires Valid() && s < |sockets| && sockets[s].ready != CLOSED
      modifies this`status
      ensures Valid()
      ensures status == Error
    {
      status := Error;
    }

    /** `onmessage` of socket `s` with frame `text`: a frame `JSON.parse`
        accepts, whatever value it holds, is handed to `onMessage` once and
        after every earlier one; a frame it rejects is dropped silently. An
        exception from `onMessage` itself is swallowed by the same `catch`,
        so the hook's state is the same whether or not the callback throws.
        The status never changes. */
    method OnMessage(s: nat, text: string)
      requires Valid() && s < |sockets| && (sockets[s].ready == OPEN || sockets[s].ready == CLOSING)
      modifies this`delivered
      ensures Valid()
      ensures delivered == old(delivered) + if parse(text).Some? then [parse(text).value] else []
    {
      var data := parse(text);
      if data.Some? {
        delivered := delivered + [data.value];
      }
    }

    /** Pending timer `t` fires: it calls `connect` of the run that set it,
        with that run's url, whether or not the run was cleaned up. */
    method FireTimer(t: nat)
      requires Valid() && t in pending
      modifies this`pending, this`sockets, this`current, this`status
      ensures Valid()
      ensures pending == old(pending) - {t}
      ensures sockets == old(sockets) + [Socket(runs[timers[t].run].url, timers[t].run, CONNECTING, [])]
      ensures current == Some(|sockets| - 1) && status == Connecting
    {
      var r := timers[t].run;
      pending := pending - {t};
      Connect(r);
    }

    /** `send(data)`: exactly one write of `JSON.stringify(data)` to
        `wsRef.current` when that socket is open; otherwise no write and no
        error. */
    method Send(data: Json)
      requires Valid()
      modifies this`sockets
      ensures Valid()
      ensures current.Some? && old(sockets)[current.value].ready == OPEN ==>
        sockets == old(sockets)[current.value :=
          old(sockets)[current.value].(written := old(sockets)[current.value].written + [stringify(data)])]
      ensures !(current.Some? && old(sockets)[current.value].ready == OPEN) ==> sockets == old(sockets)
    {
      if current.Some? && sockets[current.value].ready == OPEN {
        var c := current.value;
        sockets := sockets[c := sockets[c].(written := sockets[c].written + [stringify(data)])];
      }
    }
  }

  /** Each run of the effect has at most one pending reconnect, so clearing
      only the timer its `reconnectTimeout` holds clears all of that run's. */
  lemma AtMostOneReconnectPerRun(h: Hook)
    requires h.Valid()
    ensures forall t1, t2 :: t1 in h.pending && t2 in h.pending && h.timers[t1].run == h.timers[t2].run ==> t1 == t2
  {
  }

  /** Unmounting while connected: the cleanup asks the socket to close, and
      the close event that follows still reaches the socket's `onclose`,
      which marks the status `closed` and schedules a reconnect of the
      unmounted run. */
  method LateCloseAfterUnmount(url: string, parse: string -> Option<Json>, stringify: Json -> string)
    returns (h: Hook)
    ensures fresh(h) && h.Valid() && !h.effectLive
    ensures |h.runs| == 1 && h.runs[0].url == url
    ensures |h.sockets| == 1 && h.sockets[0].ready == CLOSED
    ensures h.timers == [Timer(0, ReconnectDelay)] && h.pending == {0}
    ensures h.status == Closed
  {
    h := new Hook(parse, stringify);
    h.RunEffect(url);
    h.OnOpen(0);
    h.Teardown();
    assert h.sockets[0].ready == CLOSING && h.pending == {};
    h.OnClose(0);
  }

  /** When that reconnect fires, a new socket to the same url exists and is
      `wsRef.current` although the effect is gone, and the hook never
      closes it. */
  method ReconnectAfterUnmount(url: string, parse: string -> Option<Json>, stringify: Json -> string)
    returns (h: Hook)
    ensures fresh(h) && h.Valid() && !h.effectLive
    ensures h.pending == {}
    ensures |h.sockets| == 2 && h.sockets[1] == Socket(url, 0, CONNECTING, [])
    ensures h.current == Some(1) && h.status == Connecting
  {
    h := LateCloseAfterUnmount(url, parse, stringify);
    h.FireTimer(0);
  }

  /** Changing the url while connected: the new socket opens, then the old
      socket's late close event runs the old run's `onclose`, which marks
      the status `closed` while the new socket is open and schedules a
      reconnect of the old run. */
  method StaleCloseAfterUrlChange(
    oldUrl: string, newUrl: string, parse: string -> Option<Json>, stringify: Json -> string)
    returns (h: Hook)
    ensures fresh(h) && h.Valid() && h.effectLive
    ensures |h.runs| == 2 && h.runs[0].url == oldUrl && h.runs[1].url == newUrl
    ensures |h.sockets| == 2 && h.current == Some(1)
    ensures h.sockets[0].ready == CLOSED && h.sockets[1] == Socket(newUrl, 1, OPEN, [])
    ensures h.status == Closed
    ensures h.pending == {0} && h.timers[0].run == 0
  {
    h := new Hook(parse, stringify);
    h.RunEffect(oldUrl);
    h.OnOpen(0);
    h.ChangeUrl(newUrl);
    assert h.sockets[0].ready == CLOSING && |h.sockets| == 2;
    h.OnOpen(1);
    h.OnClose(0);
  }

  /** The reconnect of the old run opens a socket to the OLD url, which
      becomes `wsRef.current` in place of the open socket. */
  method StaleReconnectAfterUrlChange(
    oldUrl: string, newUrl: string, parse: string -> Option<Json>, stringify: Json -> string)
    returns (h: Hook)
    ensures fresh(h) && h.Valid() && h.effectLive
    ensures |h.runs| == 2 && h.runs[1].url == newUrl
    ensures |h.sockets| == 3 && h.current == Some(2)
    ensures h.sockets[1] == Socket(newUrl, 1, OPEN, [])
    ensures h.sockets[2] == Socket(oldUrl, 0, CONNECTING, [])
    ensures h.status == Connecting && h.pending == {}
  {
    h := StaleCloseAfterUrlChange(oldUrl, newUrl, parse, stringify);
    h.FireTimer(0);
  }

  /** From there `send` no longer reaches the open socket, and the next
      cleanup closes the stale socket and leaves the open one alive. */
  method LeakedSocketAfterUrlChange(
    oldUrl: string, newUrl: string, data: Json,
    parse: string -> Option<Json>, stringify: Json -> string)
    returns (h: Hook)
    ensures h.Valid() && !h.effectLive
    ensures |h.sockets| == 3
    ensures h.sockets[1] == Socket(newUrl, 1, OPEN, [])
    ensures h.sockets[2] == Socket(oldUrl, 0, CLOSING, [])
    ensures h.pending == {}
  {
    h := StaleReconnectAfterUrlChange(oldUrl, newUrl, parse, stringify);
    h.Send(data);
    h.Teardown();
  }
}
