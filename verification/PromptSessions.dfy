/** The chunk queue of a prompt session and the store of sessions (prompt_sessions.go). Each method body
    runs under the lock of its object; PromptReaders has the interleavings of blocked readers. */
module PromptSessions {
  import opened Outcomes

  const DEFAULT_READ_CHUNK_LIMIT: nat := 16
  const DEFAULT_TTL: int := 600_000_000_000
  const STOPPED: string := "prompt session store stopped"

  /** What a session's lock protects. A channel is the number of the broadcast that closes it, so the
      channel notify is open and every lower one is closed. */
  datatype Queue = Queue(chunks: seq<string>, done: bool, errorText: Option<string>, notify: nat)

  datatype Response = Response(chunks: seq<string>, done: bool, errorText: Option<string>)

  function Fresh(): Queue {
    Queue([], false, None, 0)
  }

  function Extended(q: Queue, chunk: string): Queue {
    q.(chunks := q.chunks + [chunk], notify := q.notify + 1)
  }

  function Finished(q: Queue, err: Option<string>): Queue {
    q.(done := true, errorText := if err.Some? then err else q.errorText, notify := q.notify + 1)
  }

  /** A reader has to wait. */
  predicate Blocks(q: Queue) {
    q.chunks == [] && !q.done
  }

  /** The response to a read of at most limit chunks, and the queue it leaves. */
  function Taken(q: Queue, limit: nat): (Response, Queue) {
    var n := if limit > |q.chunks| then |q.chunks| else limit;
    var rest := q.chunks[n..];
    var done := q.done && rest == [];
    (Response(q.chunks[..n], done, if done then q.errorText else None), q.(chunks := rest))
  }

  /** chunk after chunk in one list, as a client that concatenates responses sees them. */
  function Delivered(responses: seq<Response>): seq<string> {
    if responses == [] then [] else Delivered(responses[..|responses| - 1]) + responses[|responses| - 1].chunks
  }

  predicate NoneEmpty(chunks: seq<string>) {
    forall i :: 0 <= i < |chunks| ==> |chunks[i]| > 0
  }

  /** What was handed out, and what is left, make up what was appended, in order. */
  ghost predicate Conserved(responses: seq<Response>, chunks: seq<string>, appended: seq<string>) {
    Delivered(responses) + chunks == appended
  }

  /** Taking hands out the first chunks, as many as the limit allows; a response is done, and has the error, when
      nothing more will come. */
  lemma TakenIsPrefix(q: Queue, limit: nat)
    ensures var (r, rest) := Taken(q, limit);
            && r.chunks + rest.chunks == q.chunks && |r.chunks| <= limit && (|r.chunks| < limit ==> rest.chunks == [])
            && (r.done <==> q.done && rest.chunks == []) && r.errorText == (if r.done then q.errorText else None)
            && rest.done == q.done && rest.errorText == q.errorText && rest.notify == q.notify
  {
  }

  /** Taking loses and repeats nothing; a last response leaves nothing behind; an empty one is the last. */
  lemma {:induction false} TakenKeepsChunks(responses: seq<Response>, q: Queue, limit: nat, appended: seq<string>)
    requires Conserved(responses, q.chunks, appended) && limit > 0 && !Blocks(q)
    ensures var (r, rest) := Taken(q, limit);
            && Conserved(responses + [r], rest.chunks, appended)
            && (r.done ==> Delivered(responses + [r]) == appended)
            && (r.chunks == [] ==> r.done)
  {
    var (r, rest) := Taken(q, limit);
    assert (responses + [r])[..|responses|] == responses;
    assert q.chunks == r.chunks + rest.chunks;
    assert (Delivered(responses) + r.chunks) + rest.chunks == Delivered(responses) + (r.chunks + rest.chunks);
    assert r.done ==> Delivered(responses + [r]) + [] == Delivered(responses + [r]);
  }

  class Session {
    const sessionID: string
    var canceled: bool
    var chunks: seq<string>
    var done: bool
    var errorText: Option<string>
    var lastTouched: int
    var notify: nat
    /** Everything appended, and everything handed out, since the start. */
    ghost var appended: seq<string>
    ghost var responses: seq<Response>

    ghost function View(): Queue
      reads this
    {
      Queue(chunks, done, errorText, notify)
    }

    ghost predicate Valid()
      reads this
    {
      && Conserved(responses, chunks, appended)
      && NoneEmpty(appended)
      && (errorText.Some? ==> done)
    }

    constructor (sessionID: string, now: int)
      ensures Valid() && View() == Fresh() && appended == [] && responses == []
      ensures this.sessionID == sessionID && lastTouched == now && !canceled
    {
      this.sessionID, lastTouched, canceled := sessionID, now, false;
      chunks, done, errorText, notify := [], false, None, 0;
      appended, responses := [], [];
    }

    method BroadcastLocked()
      modifies this`notify
      ensures notify == old(notify) + 1
    {
      notify := notify + 1;
    }

    method AppendChunk(chunk: string, now: int)
      requires Valid() && chunk != ""
      modifies this`chunks, this`lastTouched, this`notify, this`appended
      ensures Valid() && View() == Extended(old(View()), chunk) && lastTouched == now
      ensures chunks == old(chunks) + [chunk] && notify == old(notify) + 1
      ensures appended == old(appended) + [chunk]
    {
      chunks := chunks + [chunk];
      appended := appended + [chunk];
      lastTouched := now;
      BroadcastLocked();
    }

    /** The callback given to the analysis: empty chunks are dropped. */
    method SendChunk(chunk: string, now: int)
      requires Valid()
      modifies this`chunks, this`lastTouched, this`notify, this`appended
      ensures Valid()
      ensures chunk == "" ==> View() == old(View()) && lastTouched == old(lastTouched) && appended == old(appended)
      ensures chunk != "" ==>
                && View() == Extended(old(View()), chunk) && lastTouched == now
                && chunks == old(chunks) + [chunk] && notify == old(notify) + 1
                && appended == old(appended) + [chunk]
    {
      if chunk == "" {
        return;
      }
      AppendChunk(chunk, now);
    }

    method Finish(err: Option<string>, now: int)
      requires Valid()
      modifies this`done, this`errorText, this`lastTouched, this`notify
      ensures Valid() && View() == Finished(old(View()), err) && lastTouched == now
      ensures done && notify == old(notify) + 1 && errorText == if err.Some? then err else old(errorText)
    {
      done := true;
      if err.Some? {
        errorText := err;
      }
      lastTouched := now;
      BroadcastLocked();
    }

    /** One look at the queue. A reader that has to wait gets the channel that the next change closes. */
    method Read(limit: nat, now: int)
      returns (taken: seq<string>, finished: bool, failure: Option<string>, channel: nat)
      requires Valid() && limit > 0
      modifies this`chunks, this`lastTouched, this`responses
      ensures Valid() && lastTouched == now && channel == notify
      ensures old(chunks) == [] && !old(done) ==>
                && taken == [] && !finished && failure == None
                && View() == old(View()) && responses == old(responses)
      ensures old(chunks) != [] || old(done) ==>
                && taken + chunks == old(chunks) && |taken| <= limit && (|taken| < limit ==> chunks == [])
                && (finished <==> done && chunks == []) && failure == (if finished then errorText else None)
                && (Response(taken, finished, failure), View()) == Taken(old(View()), limit)
                && responses == old(responses) + [Response(taken, finished, failure)]
                && (|taken| == 0 ==> finished)
                && (finished ==> Delivered(responses) == appended)
    {
      lastTouched := now;
      channel := notify;
      if |chunks| == 0 && !done {
        return [], false, None, channel;
      }
      taken, finished, failure := ReadReady(limit);
    }

    /** The part of a read that does not have to wait. */
    method ReadReady(limit: nat) returns (taken: seq<string>, finished: bool, failure: Option<string>)
      requires Valid() && limit > 0 && !Blocks(View())
      modifies this`chunks, this`responses
      ensures Valid() && (Response(taken, finished, failure), View()) == Taken(old(View()), limit)
      ensures responses == old(responses) + [Response(taken, finished, failure)]
      ensures taken + chunks == old(chunks) && |taken| <= limit && (|taken| < limit ==> chunks == [])
      ensures (finished <==> done && chunks == []) && failure == (if finished then errorText else None)
      ensures (|taken| == 0 ==> finished) && (finished ==> Delivered(responses) == appended)
    {
      ghost var q := View();
      TakenKeepsChunks(responses, q, limit, appended);
      TakenIsPrefix(q, limit);
      taken, finished, failure := Take(limit);
      responses := responses + [Taken(q, limit).0];
      assert Conserved(responses, View().chunks, appended);
    }

    method Take(limit: nat) returns (taken: seq<string>, finished: bool, failure: Option<string>)
      modifies this`chunks
      ensures (Response(taken, finished, failure), View()) == Taken(old(View()), limit)
    {
      var n := if limit > |chunks| then |chunks| else limit;
      taken := chunks[..n];
      chunks := chunks[n..];
      finished := done && |chunks| == 0;
      failure := None;
      if finished && errorText.Some? {
        failure := errorText;
      }
    }

    method Cancel()
      requires Valid()
      modifies this`canceled
      ensures Valid() && canceled && View() == old(View())
    {
      canceled := true;
    }

    predicate Expired(now: int, ttl: int)
      reads this
    {
      now - lastTouched >= ttl
    }
  }

  class Store {
    var sessions: map<string, Session>
    const ttl: int
    var stopped: bool

    ghost predicate Valid()
      reads this, sessions.Values
    {
      && (forall id :: id in sessions ==> sessions[id].Valid() && sessions[id].sessionID == id)
      && ttl > 0
    }

    constructor (ttl: int)
      ensures Valid() && sessions == map[] && !stopped
      ensures this.ttl == if ttl <= 0 then 600_000_000_000 else ttl
    {
      this.ttl := if ttl <= 0 then DEFAULT_TTL else ttl;
      sessions, stopped := map[], false;
    }

    /** ctxErr is the error of a context that has ended, drawn the random identifier or the failure to
        draw one; should the identifier be taken, the new session replaces the old one. */
    method Start(ctxErr: Option<string>, drawn: Result<string>, now: int) returns (r: Result<Session>)
      requires Valid()
      modifies this`sessions
      ensures Valid()
      ensures r.Err? <==> ctxErr.Some? || stopped || drawn.Err?
      ensures r.Err? ==> sessions == old(sessions)
      ensures r.Err? ==> r.message == if ctxErr.Some? then ctxErr.value else if stopped then STOPPED else drawn.message
      ensures r.Ok? ==>
                && fresh(r.value) && r.value.sessionID == drawn.value && r.value.View() == Queue([], false, None, 0)
                && r.value.lastTouched == now && !r.value.canceled
                && sessions == old(sessions)[drawn.value := r.value]
    {
      if ctxErr.Some? {
        return Err(ctxErr.value);
      }
      if stopped {
        return Err(STOPPED);
      }
      if drawn.Err? {
        return Err(drawn.message);
      }
      var session := new Session(drawn.value, now);
      sessions := sessions[drawn.value := session];
      r := Ok(session);
    }

    /** One turn of the read loop: None means wait on the channel and try again. */
    method TryRead(id: string, maxChunks: int, now: int) returns (r: Result<Option<Response>>, channel: nat)
      requires Valid()
      modifies sessions.Values
      ensures Valid() && sessions == old(sessions)
      ensures r.Err? <==> id !in sessions
      ensures forall other :: other in sessions && other != id ==> unchanged(sessions[other])
      ensures r.Ok? ==>
                && channel == sessions[id].notify && sessions[id].lastTouched == now
                && sessions[id].canceled == old(sessions[id].canceled)
                && var q := old(sessions[id].View());
                   if q.chunks == [] && !q.done then r.value == None && sessions[id].View() == q
                   else && r.value.Some?
                        && var limit, p, left := if maxChunks <= 0 then 16 else maxChunks, r.value.value, sessions[id];
                           && p.chunks + left.chunks == q.chunks && |p.chunks| <= limit
                           && (|p.chunks| < limit ==> left.chunks == [])
                           && (p.done <==> q.done && left.chunks == []) && (p.chunks == [] ==> p.done)
                           && p.errorText == (if p.done then q.errorText else None)
                           && left.done == q.done && left.errorText == q.errorText && left.notify == q.notify
    {
      if id !in sessions {
        return Err("prompt session not found"), 0;
      }
      var session := sessions[id];
      var limit := maxChunks;
      if limit <= 0 {
        limit := DEFAULT_READ_CHUNK_LIMIT;
      }
      var chunks, done, errorText, notify := session.Read(limit, now);
      channel := notify;
      if |chunks| > 0 || done {
        r := Ok(Some(Response(chunks, done, if errorText.Some? && done then errorText else None)));
      } else {
        r := Ok(None);
      }
    }

    method Cancel(id: string) returns (ok: bool)
      requires Valid()
      modifies sessions.Values
      ensures Valid() && sessions == old(sessions) && ok == (id in sessions)
      ensures forall other :: other in sessions ==>
                && sessions[other].View() == old(sessions[other].View())
                && sessions[other].canceled == (other == id || old(sessions[other].canceled))
    {
      if id !in sessions {
        return false;
      }
      CancelOne(id);
      ok := true;
    }

    /** Drops exactly the sessions untouched for the time to live. */
    method ExpireSessions(now: int)
      requires Valid()
      modifies this`sessions
      ensures Valid()
      ensures sessions == map id | id in old(sessions) && now - old(sessions)[id].lastTouched < ttl :: old(sessions)[id]
    {
      ghost var was := sessions;
      var todo := sessions.Keys;
      while todo != {}
        invariant todo <= was.Keys
        invariant sessions == map id | id in was && (id in todo || !was[id].Expired(now, ttl)) :: was[id]
      {
        var id :| id in todo;
        if sessions[id].Expired(now, ttl) {
          sessions := map other | other in sessions && other != id :: sessions[other];
        }
        todo := todo - {id};
      }
    }

    /** Cancels every session still in the store, once. */
    method Stop()
      requires Valid()
      modifies this`stopped, sessions.Values
      ensures Valid() && stopped && sessions == old(sessions)
      ensures forall id :: id in sessions ==> sessions[id].canceled == (!old(stopped) || old(sessions[id].canceled))
      ensures forall id :: id in sessions ==> sessions[id].View() == old(sessions[id].View())
    {
      if stopped {
        return;
      }
      CancelAll();
      stopped := true;
    }

    method CancelOne(id: string)
      requires Valid() && id in sessions
      modifies sessions[id]
      ensures Valid() && sessions[id].canceled
      ensures forall other :: other in sessions ==>
                sessions[other].View() == old(sessions[other].View())
                && (other != id ==> sessions[other].canceled == old(sessions[other].canceled))
    {
      sessions[id].Cancel();
      forall other | other in sessions && other != id ensures sessions[other] != sessions[id] {
        assert sessions[other].sessionID == other && sessions[id].sessionID == id;
      }
    }

    method CancelAll()
      requires Valid()
      modifies sessions.Values
      ensures Valid()
      ensures forall id :: id in sessions ==> sessions[id].canceled && sessions[id].View() == old(sessions[id].View())
    {
      var todo := sessions.Keys;
      while todo != {}
        invariant todo <= sessions.Keys && Valid()
        invariant forall id :: id in sessions && id !in todo ==> sessions[id].canceled
        invariant forall id :: id in sessions ==> sessions[id].View() == old(sessions[id].View())
      {
        var id :| id in todo;
        CancelOne(id);
        todo := todo - {id};
      }
    }
  }
}
