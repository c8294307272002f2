/**
  A WebSocket session and the listener that keeps a registry of sessions by key.
  Each pending asynchronous operation holds a shared pointer to its session, and
  so does the handler that is running; the session is alive while anyone does.
 */
module WebSockets {
  import opened Wrappers

  datatype Callback =
    | AcceptError
    | Connected
    | Received(data: string)
    | Disconnected
    | ReadError
    | WriteError

  /** How async_read completes. */
  datatype ReadOutcome = PeerClosed | Failed | Message(data: string)

  datatype Write = Write(frame: string, ok: bool)

  datatype Session = Session(
    accepting: bool,             // the handshake is outstanding
    readOps: nat,                // async_read operations outstanding
    writing: seq<string>,        // the frames of the async_write operations outstanding
    timers: seq<string>,         // delayed sends waiting, each with the body of the broadcast that set it up
    running: bool,               // one of the session's handlers is executing
    linked: bool,                // ctx_.ws_session has been set
    buffer: string,
    writeBuf: string,
    callbacks: seq<Callback>,    // calls made to the listener's handlers
    inbound: seq<string>,        // messages read
    sends: seq<string>,          // arguments of Send
    frames: seq<string>,         // frames handed to async_write
    completed: seq<Write>)       // writes completed

  const NEW := Session(true, 0, [], [], false, false, "", "", [], [], [], [], [])

  /** What the listener adds to a message it echoes. */
  const SUFFIX := " UwU Kawaiiiiiiii!"

  predicate Alive(s: Session) {
    s.accepting || s.readOps > 0 || s.writing != [] || s.timers != [] || s.running
  }

  /** Whether locking ctx_.ws_session yields the session. */
  predicate CanLock(s: Session) { s.linked && Alive(s) }

  function StartRead(s: Session): Session { s.(readOps := s.readOps + 1) }

  /** Send: append to the write buffer and write all of it, whether or not a write is outstanding. */
  function Sent(s: Session, data: string): Session {
    var writeBuf := s.writeBuf + data;
    s.(writeBuf := writeBuf, writing := s.writing + [writeBuf],
       sends := s.sends + [data], frames := s.frames + [writeBuf])
  }

  /** A delayed send is set up for a broadcast: its timer captures a shared pointer to the session, but no body. */
  function Delayed(s: Session, body: string): Session { s.(timers := s.timers + [body]) }

  /** The timer of a delayed send fires. */
  function Fired(s: Session, j: nat, data: string): Session
    requires j < |s.timers|
  {
    Sent(s.(timers := RemoveAt(s.timers, j)), data)
  }

  function Accepted(s: Session, ok: bool): Session
    requires s.accepting
  {
    var s1 := s.(accepting := false);
    if !ok then s1.(callbacks := s.callbacks + [AcceptError])
    else StartRead(s1.(linked := true, callbacks := s.callbacks + [Connected]))
  }

  /** The session as on_receive finds it: the handler is running and the message is in the buffer. */
  function Receiving(s: Session, data: string): Session
    requires s.readOps > 0
  {
    var buffer := s.buffer + data;
    s.(readOps := s.readOps - 1, running := true, buffer := buffer, inbound := s.inbound + [data],
       callbacks := s.callbacks + [Received(buffer)])
  }

  /** What an on_receive that wants to answer does to the session. */
  function Replied(s: Session, reply: Option<string>): Session {
    if reply.Some? && CanLock(s) then Sent(s, reply.value) else s
  }

  /** A read has completed; reply is what on_receive answers to a message. */
  function ReadDone(s: Session, outcome: ReadOutcome, reply: Option<string>): Session
    requires s.readOps > 0
  {
    match outcome
    case PeerClosed => s.(readOps := s.readOps - 1, running := false, callbacks := s.callbacks + [Disconnected])
    case Failed => s.(readOps := s.readOps - 1, running := false, callbacks := s.callbacks + [ReadError])
    case Message(data) =>
      var shown := Receiving(s, data);
      StartRead(Replied(shown, reply).(buffer := shown.buffer[|shown.buffer|..], running := false))
  }

  /** flat_buffer::consume: takes n bytes off the front, or all there are. */
  function Consume(buffer: string, n: nat): string {
    if n < |buffer| then buffer[n..] else ""
  }

  /** Write k of those outstanding has completed. */
  function WriteDone(s: Session, k: nat, ok: bool): Session
    requires k < |s.writing|
  {
    var s1 := s.(writing := RemoveAt(s.writing, k), completed := s.completed + [Write(s.writing[k], ok)]);
    if !ok then s1.(callbacks := s.callbacks + [WriteError])
    else s1.(writeBuf := Consume(s.writeBuf, |s.writing[k]|))
  }

  class WebSocketSession {
    const key: string            // the client's Sec-WebSocket-Key, used as uuid
    var accepting: bool
    var readOps: nat
    var writing: seq<string>
    var timers: seq<string>
    var running: bool
    var linked: bool
    var buffer: string
    var writeBuf: string
    var callbacks: seq<Callback>
    var inbound: seq<string>
    var sends: seq<string>
    var frames: seq<string>
    var completed: seq<Write>

    function View(): Session
      reads this
    {
      Session(accepting, readOps, writing, timers, running, linked, buffer, writeBuf,
              callbacks, inbound, sends, frames, completed)
    }

    /** A session whose handshake has been started. */
    constructor (key: string)
      ensures View() == NEW && this.key == key
    {
      this.key := key;
      accepting, readOps, writing, timers, running, linked := true, 0, [], [], false, false;
      buffer, writeBuf := "", "";
      callbacks, inbound, sends, frames, completed := [], [], [], [], [];
    }

    method Send(data: string)
      modifies this
      ensures View() == Sent(old(View()), data)
    {
      writeBuf := writeBuf + data;
      sends := sends + [data];
      StartWrite();
    }

    method StartWrite()
      modifies this`writing, this`frames
      ensures writing == old(writing) + [writeBuf] && frames == old(frames) + [writeBuf]
    {
      writing := writing + [writeBuf];
      frames := frames + [writeBuf];
    }

    method StartReading()
      modifies this`readOps
      ensures readOps == old(readOps) + 1
    {
      readOps := readOps + 1;
    }

    method OnAccept(ok: bool, listener: Listener)
      requires accepting
      modifies this, listener
      ensures View() == Accepted(old(View()), ok)
      ensures listener.ctxs == if ok then old(listener.ctxs)[key := this] else old(listener.ctxs)
    {
      accepting := false;
      if !ok {
        callbacks := callbacks + [AcceptError];
        return;
      }
      linked := true;
      callbacks := callbacks + [Connected];
      listener.OnConnect(this);
      StartReading();
    }

    method OnRead(outcome: ReadOutcome, listener: Listener)
      requires readOps > 0 && linked
      modifies this, listener
      ensures View() == ReadDone(old(View()), outcome, Listener.Answer(old(buffer), outcome))
      // only a close unregisters: on_receive never takes its erase branch
      ensures listener.ctxs == if outcome.PeerClosed? then old(listener.ctxs) - {key} else old(listener.ctxs)
    {
      readOps := readOps - 1;
      running := true;
      match outcome {
        case PeerClosed =>
          callbacks := callbacks + [Disconnected];
          listener.OnDisconnect(this);
          running := false;
          return;
        case Failed =>
          callbacks := callbacks + [ReadError];
          running := false;
          return;
        case Message(data) =>
          Receive(data, listener);
          running := false;
          StartReading();
      }
    }

    /** Shows the buffered message to the listener and consumes it. */
    method Receive(data: string, listener: Listener)
      requires linked && running
      modifies this, listener
      ensures var shown := old(View()).(buffer := old(buffer) + data, inbound := old(inbound) + [data],
                                        callbacks := old(callbacks) + [Received(old(buffer) + data)]);
              View() == Sent(shown, shown.buffer + SUFFIX).(buffer := shown.buffer[|shown.buffer|..])
      ensures listener.ctxs == old(listener.ctxs)
    {
      buffer := buffer + data;
      inbound := inbound + [data];
      var view := buffer;
      callbacks := callbacks + [Received(view)];
      listener.OnReceive(this, view);
      buffer := buffer[|view|..];
    }

    /** Write k of those outstanding has completed; a write that succeeds has transferred its whole frame. */
    method OnWrite(k: nat, ok: bool)
      requires k < |writing|
      modifies this
      ensures View() == WriteDone(old(View()), k, ok)
    {
      var frame := writing[k];
      writing := RemoveAt(writing, k);
      completed := completed + [Write(frame, ok)];
      if !ok {
        callbacks := callbacks + [WriteError];
        return;
      }
      writeBuf := Consume(writeBuf, |frame|);
    }
  }

  class Listener {
    var ctxs: map<string, WebSocketSession>
    var state: string

    constructor ()
      ensures ctxs == map[] && state == ""
    {
      ctxs, state := map[], "";
    }

    /** What OnReceive sends back for a completed read. */
    static function Answer(buffered: string, outcome: ReadOutcome): Option<string> {
      if outcome.Message? then Some(buffered + outcome.data + SUFFIX) else None
    }

    method OnConnect(session: WebSocketSession)
      modifies this`ctxs
      ensures ctxs == old(ctxs)[session.key := session]
    {
      ctxs := ctxs[session.key := session];
    }

    method OnDisconnect(session: WebSocketSession)
      modifies this`ctxs
      ensures ctxs == old(ctxs) - {session.key}
    {
      if session.key in ctxs {
        ctxs := ctxs - {session.key};
      }
    }

    /** Answers if the session can still be locked, and forgets it otherwise. */
    method OnReceive(session: WebSocketSession, buf: string)
      modifies this`ctxs, session
      ensures session.View() == Replied(old(session.View()), Some(buf + SUFFIX))
      ensures ctxs == if old(CanLock(session.View())) then old(ctxs) else old(ctxs) - {session.key}
    {
      if CanLock(session.View()) {
        session.Send(buf + SUFFIX);
      } else if session.key in ctxs {
        ctxs := ctxs - {session.key};
      }
    }

    /**
      Stores a new state and sends it to every registered session, at once or after
      a delay.  The entries are raw pointers, so they must be live.
     */
    method SetState(body: string, delay: bool)
      requires forall k <- ctxs :: CanLock(ctxs[k].View()) && ctxs[k].key == k
      modifies this`state, ctxs.Values
      ensures state == body && ctxs == old(ctxs)
      ensures forall k <- ctxs :: ctxs[k].View() == Told(old(ctxs[k].View()), body, delay)
    {
      state := body;
      var left := ctxs.Keys;
      while left != {}
        invariant left <= ctxs.Keys && ctxs == old(ctxs) && state == body
        invariant forall k <- left :: ctxs[k].View() == old(ctxs[k].View())
        invariant forall k <- ctxs.Keys - left :: ctxs[k].View() == Told(old(ctxs[k].View()), body, delay)
        decreases left
      {
        var k :| k in left;
        Tell(ctxs[k], delay);
        left := left - {k};
      }
    }

    /** One turn of the broadcast loop. */
    method Tell(session: WebSocketSession, delay: bool)
      requires CanLock(session.View())
      modifies session
      ensures session.View() == Told(old(session.View()), state, delay)
    {
      if CanLock(session.View()) {
        if delay {
          session.timers := session.timers + [state];
        } else {
          session.Send(state);
        }
      }
    }

    /** Delayed send j of those waiting goes out, with the state of this moment. */
    method OnTimer(session: WebSocketSession, j: nat)
      requires j < |session.timers|
      modifies session
      ensures session.View() == Fired(old(session.View()), j, state)
    {
      session.timers := RemoveAt(session.timers, j);
      session.Send(state);
    }
  }

  /** What a broadcast does to a session it reaches. */
  function Told(s: Session, body: string, delay: bool): Session {
    if delay then Delayed(s, body) else Sent(s, body)
  }
}
