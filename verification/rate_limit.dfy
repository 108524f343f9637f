/** The worker's in-memory, fixed-window rate limiter: one counter per
    client key, forgiven entirely once its window has expired. */
module RateLimit {
  import opened Wrappers

  /** Window length in milliseconds. */
  const WindowMs: int := 60 * 1000
  /** Requests admitted per client and window. */
  const MaxRequests: int := 9

  /** The client's counter: how many requests it made since `startTime`. */
  datatype Window = Window(count: int, startTime: int)

  /** The limiter's verdict on one request, and the table afterwards. */
  datatype Admission = Admission(allowed: bool, entries: map<string, Window>)

  /** The key a request is counted under: the `CF-Connecting-IP` header, or
      the shared key "unknown" when that header is absent or empty. */
  function ClientKey(ip: Option<string>): (key: string)
    ensures key != ""
    ensures ip.Some? && ip.value != "" ==> key == ip.value
    ensures ip.None? || ip.value == "" ==> key == "unknown"
  {
    if ip.Some? && ip.value != "" then ip.value else "unknown"
  }

  /** Every stored counter has been incremented at least once and never
      beyond capacity. */
  ghost predicate WellFormed(entries: map<string, Window>)
  {
    forall k :: k in entries ==> 1 <= entries[k].count <= MaxRequests
  }

  /** One request from `key` at time `now`: look the counter up (a fresh one
      starts at 0, now), reset it when strictly more than a window has
      passed, refuse when it is at capacity, and otherwise count the
      request. */
  function Admit(entries: map<string, Window>, key: string, now: int): (a: Admission)
    ensures !a.allowed ==> a.entries == entries
    ensures a.allowed ==> a.entries.Keys == entries.Keys + {key} && a.entries[key].count <= MaxRequests
  {
    var data := if key in entries then entries[key] else Window(0, now);
    var data := if now - data.startTime > WindowMs then Window(0, now) else data;
    if data.count >= MaxRequests then Admission(false, entries)
    else Admission(true, entries[key := data.(count := data.count + 1)])
  }

  /** The limiter decides in closed form: a request is refused exactly when
      the key has a counter whose window has not expired (at most WindowMs
      old, boundary included) and which is at capacity; a refusal changes
      nothing; an admission either continues the window with one more
      request or opens a new window at `now` holding this request; no other
      key's counter changes. */
  lemma AdmitCharacterised(entries: map<string, Window>, key: string, now: int)
    ensures var a := Admit(entries, key, now);
      && (!a.allowed <==>
            key in entries && now - entries[key].startTime <= WindowMs
            && entries[key].count >= MaxRequests)
      && (!a.allowed ==> a.entries == entries)
      && (a.allowed ==>
            && key in a.entries
            && a.entries[key] ==
                 if key in entries && now - entries[key].startTime <= WindowMs
                 then Window(entries[key].count + 1, entries[key].startTime)
                 else Window(1, now))
      && a.entries.Keys == entries.Keys + (if a.allowed then {key} else {})
      && (forall k :: k in entries && k != key ==> a.entries[k] == entries[k])
  {
  }

  /** No counter ever exceeds capacity: admission preserves WellFormed. */
  lemma AdmitPreservesWellFormed(entries: map<string, Window>, key: string, now: int)
    requires WellFormed(entries)
    ensures WellFormed(Admit(entries, key, now).entries)
  {
  }

  /** Once strictly more than a window has passed since a counter's start,
      the client is admitted again and counting restarts from zero. */
  lemma ExpiredWindowForgiven(entries: map<string, Window>, key: string, now: int)
    requires key in entries && now - entries[key].startTime > WindowMs
    ensures Admit(entries, key, now) == Admission(true, entries[key := Window(1, now)])
  {
  }

  /** The verdicts on a series of requests from one key. */
  function AdmitAll(entries: map<string, Window>, key: string, times: seq<int>): (verdicts: seq<bool>)
    ensures |verdicts| == |times|
    decreases |times|
  {
    if times == [] then []
    else
      var a := Admit(entries, key, times[0]);
      [a.allowed] + AdmitAll(a.entries, key, times[1..])
  }

  /** Within an unexpired window holding `count` requests, the i-th further
      request is refused exactly when count + i reaches capacity. */
  lemma {:induction false} AdmitAllWithinWindow(entries: map<string, Window>, key: string, times: seq<int>)
    requires key in entries && entries[key].count >= 0
    requires forall i :: 0 <= i < |times| ==> times[i] - entries[key].startTime <= WindowMs
    ensures forall i :: 0 <= i < |times| ==>
      (AdmitAll(entries, key, times)[i] <==> entries[key].count + i < MaxRequests)
  {
    if times != [] {
      var c := entries[key].count;
      var a := Admit(entries, key, times[0]);
      assert a.allowed ==> a.entries[key] == Window(c + 1, entries[key].startTime);
      assert !a.allowed ==> a.entries == entries && c >= MaxRequests;
      AdmitAllWithinWindow(a.entries, key, times[1..]);
      var v := AdmitAll(entries, key, times);
      var rest := AdmitAll(a.entries, key, times[1..]);
      assert v == [a.allowed] + rest;
      forall i | 0 <= i < |times|
        ensures v[i] <==> c + i < MaxRequests
      {
        if i == 0 {
          assert v[0] == a.allowed;
        } else {
          assert v[i] == rest[i - 1];
          assert rest[i - 1] <==> a.entries[key].count + (i - 1) < MaxRequests;
        }
      }
    }
  }

  /** A client unknown to the limiter that sends requests all within one
      window of its first request has exactly its first nine admitted: the
      tenth and every later one are refused. */
  lemma {:induction false} TenthRequestRefused(entries: map<string, Window>, key: string, times: seq<int>)
    requires key !in entries && times != []
    requires forall i :: 0 <= i < |times| ==> times[i] - times[0] <= WindowMs
    ensures forall i :: 0 <= i < |times| ==> (AdmitAll(entries, key, times)[i] <==> i < MaxRequests)
  {
    var a := Admit(entries, key, times[0]);
    assert a.allowed && a.entries[key] == Window(1, times[0]);
    forall i | 0 <= i < |times[1..]|
      ensures times[1..][i] - a.entries[key].startTime <= WindowMs
    {
      assert times[1..][i] == times[i + 1];
    }
    AdmitAllWithinWindow(a.entries, key, times[1..]);
    var v := AdmitAll(entries, key, times);
    var rest := AdmitAll(a.entries, key, times[1..]);
    assert v == [a.allowed] + rest;
    forall i | 0 <= i < |times|
      ensures v[i] <==> i < MaxRequests
    {
      if i > 0 {
        assert v[i] == rest[i - 1];
        assert rest[i - 1] <==> 1 + (i - 1) < MaxRequests;
      }
    }
  }

  /** The limiter's table, shared by all requests the worker serves. */
  class RateLimiter {
    var entries: map<string, Window>

    ghost predicate Valid()
      reads this
    {
      WellFormed(entries)
    }

    constructor ()
      ensures Valid() && entries == map[]
    {
      entries := map[];
    }

    /** Counts one request from `key` at time `now` if the key still has
        room in its window, updating its counter in place. */
    method CheckAndConsume(key: string, now: int) returns (allowed: bool)
      modifies this
      ensures allowed == Admit(old(entries), key, now).allowed
      ensures entries == Admit(old(entries), key, now).entries
      ensures old(Valid()) ==> Valid()
    {
      ghost var before := entries;
      var clientData := if key in entries then entries[key] else Window(0, now);
      if now - clientData.startTime > WindowMs {
        clientData := clientData.(count := 0);
        clientData := clientData.(startTime := now);
      }
      if clientData.count >= MaxRequests {
        return false;
      }
      clientData := clientData.(count := clientData.count + 1);
      entries := entries[key := clientData];
      allowed := true;
      if WellFormed(before) {
        AdmitPreservesWellFormed(before, key, now);
      }
    }
  }
}
