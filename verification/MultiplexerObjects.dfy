/** The client as the object it is: the waiters and the channels it updates under its lock, the one
    read loop, and the end of it. */
module MultiplexerObjects {
  import opened Wrappers
  import opened Multiplexer

  class Client {
    var waiters: map<Key, Chan>
    var chans: map<Chan, seq<Frame>>
    var stream: seq<Frame>
    var closed: bool
    /** once. */
    var finished: bool
    ghost var closes: nat

    ghost predicate Valid()
      reads this
    {
      && finished == closed && closes == (if finished then 1 else 0) && |stream| <= STREAM_DEPTH
      && (forall k :: k in waiters ==> waiters[k] in chans && chans[waiters[k]] == [])
      && (forall k, l :: k in waiters && l in waiters && waiters[k] == waiters[l] ==> k == l)
    }

    constructor ()
      ensures Valid() && waiters == map[] && chans == map[] && stream == [] && !closed
    {
      waiters, chans, stream, closed, finished, closes := map[], map[], [], false, false, 0;
    }

    /** A request's waiters are registered before it is sent. */
    method Register(t: Tid, id: nat, want: nat) returns (ok: bool)
      requires Valid() && Reply(t) !in chans && ErrorReply(t) !in chans
      modifies this`waiters, this`chans
      ensures Valid() && ok == (Key(id, want) !in old(waiters))
      ensures !ok ==> waiters == old(waiters) && chans == old(chans)
      ensures ok ==> chans == old(chans)[Reply(t) := []][ErrorReply(t) := []]
      ensures ok ==> waiters.Keys == old(waiters).Keys + {Key(id, want), Key(id, 0)} && waiters[Key(id, want)] == Reply(t)
      ensures ok && want != 0 && Key(id, 0) !in old(waiters) ==> waiters[Key(id, 0)] == ErrorReply(t)
      ensures ok ==> forall k :: k in old(waiters) ==> waiters[k] == old(waiters)[k]
      ensures forall s: Sys :: ok && s.waiters == old(waiters) && s.chans == old(chans) ==>
        waiters == Registered(s, t, id, want).waiters && chans == Registered(s, t, id, want).chans
    {
      var key, errKey := Key(id, want), Key(id, ERROR);
      if key in waiters {
        return false;
      }
      chans := chans[Reply(t) := []][ErrorReply(t) := []];
      waiters := waiters[key := Reply(t)];
      if errKey !in waiters {
        waiters := waiters[errKey := ErrorReply(t)];
      }
      return true;
    }

    method Cleanup(key: Key, errKey: Key)
      requires Valid()
      modifies this`waiters
      ensures Valid() && waiters == old(waiters) - {key, errKey}
    {
      waiters := waiters - {key};
      waiters := waiters - {errKey};
    }

    /** One frame: to its waiter, which is then gone, or to the stream while it has room. */
    method RouteOne(f: Frame) returns (route: Option<Route>)
      requires Valid() && !closed
      modifies this`waiters, this`chans, this`stream
      ensures Valid()
      ensures f.key in old(waiters) ==>
        && route == Some(ToWaiter(old(waiters)[f.key])) && waiters == old(waiters) - {f.key}
        && chans == old(chans)[old(waiters)[f.key] := [f]] && stream == old(stream)
      ensures f.key !in old(waiters) ==>
        && waiters == old(waiters) == old(waiters) - {f.key} && chans == old(chans)
        && (if |old(stream)| < 256 then route == Some(ToStream) && stream == old(stream) + [f]
            else route == None && stream == old(stream))
    {
      if f.key in waiters {
        var ch := waiters[f.key];
        waiters := waiters - {f.key};
        assert chans[ch] + [f] == [f];
        chans := chans[ch := chans[ch] + [f]];
        return Some(ToWaiter(ch));
      }
      if |stream| < STREAM_DEPTH {
        stream := stream + [f];
        return Some(ToStream);
      }
      return None;
    }

    /** The read loop on the frames that come, until one waits for the stream to make room. A waiter
        is spent by the first frame of its key; all others are the stream's, in order. */
    method Route(frames: seq<Frame>) returns (routes: seq<Route>)
      requires Valid() && !closed
      modifies this`waiters, this`chans, this`stream
      ensures Valid() && |routes| <= |frames|
      ensures |routes| < |frames| ==> |stream| == STREAM_DEPTH && frames[|routes|].key !in waiters
      ensures stream == old(stream) + Unclaimed(frames, routes)
      ensures RoutedSoFar(old(waiters), frames, routes, waiters)
    {
      routes := [];
      while |routes| < |frames|
        invariant |routes| <= |frames| && Valid()
        invariant stream == old(stream) + Unclaimed(frames, routes)
        invariant RoutedSoFar(old(waiters), frames, routes, waiters)
        decreases |frames| - |routes|
      {
        ghost var before, left := routes, waiters;
        var route := RouteOne(frames[|routes|]);
        if route.None? {
          return;
        }
        RoutedOneMore(old(waiters), frames, before, left, route.value);
        UnclaimedNext(frames, before, route.value);
        routes := routes + [route.value];
      }
    }

    /** Called again, it closes nothing more. */
    method Finish()
      requires Valid()
      modifies this`closed, this`finished, this`closes
      ensures Valid() && closed && closes == 1
      ensures forall s: Sys :: s.finished == old(finished) && s.closes == old(closes) ==>
        finished == Finished(s).finished && closes == Finished(s).closes
    {
      if !finished {
        finished := true;
        CloseStream();
      }
    }

    method CloseStream()
      modifies this`closed, this`closes
      ensures closed && closes == old(closes) + 1
    {
      closed := true;
      closes := closes + 1;
    }
  }

  ghost function FrameKeys(frames: seq<Frame>, n: nat): set<Key>
    requires n <= |frames|
  {
    set i | 0 <= i < n :: frames[i].key
  }

  lemma UnclaimedNext(frames: seq<Frame>, routes: seq<Route>, route: Route)
    requires |routes| < |frames|
    ensures Unclaimed(frames, routes + [route]) == Unclaimed(frames, routes) + if route.ToStream? then [frames[|routes|]] else []
  {
    assert (routes + [route])[..|routes|] == routes;
  }

  /** Where the frame at i belongs, by the waiters there were before the first. */
  ghost function FirstOfKey(waiters: map<Key, Chan>, frames: seq<Frame>, i: nat): Route
    requires i < |frames|
  {
    if frames[i].key in waiters && forall j :: 0 <= j < i ==> frames[j].key != frames[i].key then ToWaiter(waiters[frames[i].key])
    else ToStream
  }

  /** Each frame went where it belongs, and the keys of those frames wait no more. */
  ghost predicate RoutedSoFar(was: map<Key, Chan>, frames: seq<Frame>, routes: seq<Route>, left: map<Key, Chan>) {
    && |routes| <= |frames|
    && (forall i :: 0 <= i < |routes| ==> routes[i] == FirstOfKey(was, frames, i))
    && left == was - FrameKeys(frames, |routes|)
  }

  lemma RoutedOneMore(was: map<Key, Chan>, frames: seq<Frame>, routes: seq<Route>, left: map<Key, Chan>, route: Route)
    requires RoutedSoFar(was, frames, routes, left) && |routes| < |frames|
    requires route == if frames[|routes|].key in left then ToWaiter(left[frames[|routes|].key]) else ToStream
    ensures RoutedSoFar(was, frames, routes + [route], left - {frames[|routes|].key})
  {
    var n := |routes|;
    assert FrameKeys(frames, n + 1) == FrameKeys(frames, n) + {frames[n].key};
    assert route == FirstOfKey(was, frames, n);
  }
}
