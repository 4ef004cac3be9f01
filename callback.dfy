/** The callback correlation pool of `callback.rs`: `send_request` registers an entry
    `(id, Some(sender))`, and the `cb` command resolves it when the webview reports back. */
module Callback {
  import opened Wrappers
  import opened Text
  import Json

  /** The sending half of a one-shot channel; only its presence or absence matters here. */
  datatype Sender = Sender

  /** `CallbackEntry`: the correlation id and the not-yet-taken sender. */
  datatype Entry = Entry(id: string, callback: Option<Sender>)

  /** What travels over the channel: `Result<Value, String>`. */
  datatype Outcome = Ok(value: Json.Value) | Err(message: string)

  // ---------------------------------------------------------------- ids

  predicate IsAlphanumeric(c: char) {
    ('0' <= c <= '9') || ('A' <= c <= 'Z') || ('a' <= c <= 'z')
  }

  /** The shape of a generated id: 32 ASCII letters and digits. */
  predicate ValidId(id: string) {
    |id| == 32 && forall i :: 0 <= i < |id| ==> IsAlphanumeric(id[i])
  }

  /** The id of `send_request`: the first 32 characters drawn from an alphanumeric
      sampler; the random draws themselves are the parameter `draws`. */
  function MakeId(draws: seq<char>): (id: string)
    requires |draws| >= 32
    requires forall i :: 0 <= i < |draws| ==> IsAlphanumeric(draws[i])
    ensures ValidId(id)
    ensures forall i :: 0 <= i < 32 ==> id[i] == draws[i]
  {
    draws[..32]
  }

  // ---------------------------------------------------------------- extra params

  /** One `response.{k} = {v};` assignment per entry, in iteration order. */
  function Assignments(fields: Json.Fields): string
    decreases |fields|
  {
    if |fields| == 0 then ""
    else "response." + fields[0].0 + " = " + Json.Show(fields[0].1) + ";" + Assignments(fields[1..])
  }

  /** The `extra_params` text spliced into the request script: the assignments for an
      object argument, and nothing for `None` or a value that is not an object. */
  function ExtraParams(extra: Option<Json.Value>): (r: string)
    ensures (extra.None? || !extra.value.Object?) ==> r == ""
  {
    if extra.Some? && extra.value.Object? then Assignments(extra.value.fields) else ""
  }

  /** The assignments of a concatenation are the concatenated assignments: one
      fragment per entry, in order, and nothing in between. */
  lemma {:induction false} AssignmentsAppend(a: Json.Fields, b: Json.Fields)
    ensures Assignments(a + b) == Assignments(a) + Assignments(b)
    decreases |a|
  {
    if |a| == 0 {
      assert a + b == b;
    } else {
      assert (a + b)[1..] == a[1..] + b;
      AssignmentsAppend(a[1..], b);
    }
  }

  lemma ExtraParamsOneField(key: string, value: Json.Value)
    ensures ExtraParams(Some(Json.Object([(key, value)]))) == "response." + key + " = " + Json.Show(value) + ";"
  {
    var text := "response." + key + " = " + Json.Show(value) + ";";
    assert [(key, value)][1..] == [];
    assert Assignments([(key, value)]) == text + Assignments([]);
    assert text + "" == text;
  }

  // ---------------------------------------------------------------- pure specification

  /** Every entry still holds its sender. */
  predicate AllPending(entries: seq<Entry>) {
    forall i :: 0 <= i < |entries| ==> entries[i].callback.Some?
  }

  predicate HasId(entries: seq<Entry>, id: string) {
    exists i :: 0 <= i < |entries| && entries[i].id == id
  }

  /** `iter_mut().find(|e| e.id == id)`: the position of the first entry with `id`. */
  function IndexOf(entries: seq<Entry>, id: string): (r: Option<nat>)
    ensures r.None? <==> !HasId(entries, id)
    ensures r.Some? ==> r.value < |entries| && entries[r.value].id == id
    ensures r.Some? ==> forall j :: 0 <= j < r.value ==> entries[j].id != id
    decreases |entries|
  {
    if |entries| == 0 then None
    else if entries[0].id == id then Some(0)
    else
      var r := IndexOf(entries[1..], id);
      if r.Some? then Some(r.value + 1) else None
  }

  /** `retain(|e| e.id != id)`. */
  function Without(entries: seq<Entry>, id: string): seq<Entry>
    decreases |entries|
  {
    if |entries| == 0 then []
    else (if entries[0].id == id then [] else [entries[0]]) + Without(entries[1..], id)
  }

  /** What the payload delivers: an error carrying the text of the `"err"` value when
      that key is present, otherwise the whole object. */
  function OutcomeOf(payload: Json.Fields): Outcome {
    if Json.Get(payload, "err").Some? then Err(Json.Show(Json.Get(payload, "err").value))
    else Ok(Json.Object(payload))
  }

  /** `cb(json, id)`: the pool afterwards and the outcome sent, if one was. */
  function ResolveSpec(entries: seq<Entry>, payload: Json.Fields, id: string): (seq<Entry>, Option<Outcome>) {
    var found := IndexOf(entries, id);
    if found.None? then (entries, None)
    else if entries[found.value].callback.None? then (entries, None)
    else (Without(entries, id), Some(OutcomeOf(payload)))
  }

  // ---------------------------------------------------------------- lemmas about retain

  /** `retain` works entry by entry: the kept entries of a concatenation are the kept
      entries of each part, in order. */
  lemma {:induction false} WithoutAppend(a: seq<Entry>, b: seq<Entry>, id: string)
    ensures Without(a + b, id) == Without(a, id) + Without(b, id)
    decreases |a|
  {
    if |a| == 0 {
      assert a + b == b;
    } else {
      var head := if a[0].id == id then [] else [a[0]];
      var x, y := Without(a[1..], id), Without(b, id);
      assert Without(a + b, id) == head + (x + y) by {
        assert (a + b)[0] == a[0] && (a + b)[1..] == a[1..] + b;
        WithoutAppend(a[1..], b, id);
      }
      assert head + (x + y) == (head + x) + y;
    }
  }

  /** Exactly the entries with another id are kept. */
  lemma {:induction false} WithoutMembers(entries: seq<Entry>, id: string)
    ensures forall e :: e in Without(entries, id) <==> e in entries && e.id != id
    decreases |entries|
  {
    if |entries| > 0 {
      WithoutMembers(entries[1..], id);
      assert entries == [entries[0]] + entries[1..];
    }
  }

  /** Nothing to remove: `retain` leaves the pool as it is. */
  lemma {:induction false} WithoutAbsent(entries: seq<Entry>, id: string)
    requires !HasId(entries, id)
    ensures Without(entries, id) == entries
    decreases |entries|
  {
    if |entries| > 0 {
      assert !HasId(entries[1..], id) by {
        forall i | 0 <= i < |entries[1..]| ensures entries[1..][i].id != id {
          assert entries[1..][i] == entries[i + 1];
        }
      }
      WithoutAbsent(entries[1..], id);
      assert [entries[0]] + entries[1..] == entries;
    }
  }

  /** Taking the sender out of an entry with `id` does not change what `retain` keeps. */
  lemma {:induction false} WithoutIgnoresTaken(entries: seq<Entry>, id: string, i: nat)
    requires i < |entries| && entries[i].id == id
    ensures Without(entries[i := Entry(id, None)], id) == Without(entries, id)
    decreases |entries|
  {
    var updated := entries[i := Entry(id, None)];
    if i > 0 {
      assert updated[1..] == entries[1..][i - 1 := Entry(id, None)];
      WithoutIgnoresTaken(entries[1..], id, i - 1);
    } else {
      assert updated[1..] == entries[1..];
    }
  }

  lemma WithoutPending(entries: seq<Entry>, id: string)
    requires AllPending(entries)
    ensures AllPending(Without(entries, id))
  {
    WithoutMembers(entries, id);
    forall i | 0 <= i < |Without(entries, id)| ensures Without(entries, id)[i].callback.Some? {
      var e := Without(entries, id)[i];
      assert e in entries;
    }
  }

  // ---------------------------------------------------------------- lemmas about resolve

  /** A callback for an id the pool does not hold changes nothing and sends nothing. */
  lemma ResolveUnknown(entries: seq<Entry>, payload: Json.Fields, id: string)
    requires !HasId(entries, id)
    ensures ResolveSpec(entries, payload, id) == (entries, None)
  {
  }

  /** A callback for a registered id sends exactly one outcome, leaves no entry with
      that id, and keeps every other entry in its original relative order. The outcome
      is an error exactly when the payload has an `"err"` key, and then carries the
      text of that value; otherwise it is the whole payload object. */
  lemma ResolveRegistered(entries: seq<Entry>, payload: Json.Fields, id: string)
    requires AllPending(entries) && HasId(entries, id)
    ensures var (after, sent) := ResolveSpec(entries, payload, id);
      && after == Without(entries, id)
      && !HasId(after, id)
      && (forall e :: e in after <==> e in entries && e.id != id)
      && AllPending(after)
      && sent.Some?
      && (sent.value.Err? <==> Json.HasKey(payload, "err"))
      && (sent.value.Err? ==> exists v :: Json.Get(payload, "err") == Some(v) && sent.value.message == Json.Show(v))
      && (sent.value.Ok? ==> sent.value.value == Json.Object(payload))
  {
    var after := Without(entries, id);
    WithoutMembers(entries, id);
    WithoutPending(entries, id);
    Json.GetSpec(payload, "err");
  }

  /** Exactly once: after a first callback for `id`, any second one is a no-op. */
  lemma ResolveTwice(entries: seq<Entry>, first: Json.Fields, second: Json.Fields, id: string)
    requires AllPending(entries)
    ensures var after := ResolveSpec(entries, first, id).0;
      ResolveSpec(after, second, id) == (after, None)
  {
    if HasId(entries, id) {
      ResolveRegistered(entries, first, id);
    }
  }

  /** Register then resolve is a round trip: the pool returns to what it was and the
      waiter receives the payload's outcome. */
  lemma RegisterThenResolve(entries: seq<Entry>, payload: Json.Fields, id: string)
    requires AllPending(entries) && !HasId(entries, id)
    ensures ResolveSpec(entries + [Entry(id, Some(Sender))], payload, id) == (entries, Some(OutcomeOf(payload)))
  {
    var pool := entries + [Entry(id, Some(Sender))];
    assert pool[|entries|].id == id;
    assert forall j :: 0 <= j < |entries| ==> pool[j].id != id;
    assert IndexOf(pool, id) == Some(|entries|);
    WithoutAppend(entries, [Entry(id, Some(Sender))], id);
    WithoutAbsent(entries, id);
    assert Without([Entry(id, Some(Sender))], id) == [];
    assert Without(pool, id) == entries + [] == entries;
  }

  /** The text of the channel's receive error when the sender is dropped unsent. */
  const ChannelClosed: string := "channel closed"

  /** What `send_request` returns once its channel settles: the delivered outcome, or an
      error when the sender was dropped without a send (`None`). */
  function AwaitReply(delivered: Option<Outcome>): (r: Outcome)
    ensures delivered.Some? ==> r == delivered.value
    ensures delivered.None? ==> r.Err? && StartsWith(r.message, "Something went wrong with callback ")
  {
    if delivered.Some? then delivered.value
    else Err("Something went wrong with callback " + ChannelClosed)
  }

  /** With two entries under one id, the first callback removes both: one waiter gets
      the outcome, and the other's sender is dropped, so that request fails. */
  lemma DuplicateIdDropsSecond(entries: seq<Entry>, payload: Json.Fields, id: string, i: nat, j: nat)
    requires AllPending(entries) && i < j < |entries| && entries[i].id == id && entries[j].id == id
    ensures var (after, sent) := ResolveSpec(entries, payload, id);
      sent == Some(OutcomeOf(payload)) && !HasId(after, id) && |after| <= |entries| - 2
  {
    assert HasId(entries, id);
    ResolveRegistered(entries, payload, id);
    WithoutCount(entries, id, i, j);
  }

  /** Removing an id that occurs at two positions shortens the pool by at least two. */
  lemma {:induction false} WithoutCount(entries: seq<Entry>, id: string, i: nat, j: nat)
    requires i < j < |entries| && entries[i].id == id && entries[j].id == id
    ensures |Without(entries, id)| <= |entries| - 2
    decreases |entries|
  {
    if i > 0 {
      WithoutCount(entries[1..], id, i - 1, j - 1);
    } else {
      WithoutAtMost(entries[1..], id, j - 1);
    }
  }

  /** Removing an id that occurs at least once shortens the pool by at least one. */
  lemma {:induction false} WithoutAtMost(entries: seq<Entry>, id: string, j: nat)
    requires j < |entries| && entries[j].id == id
    ensures |Without(entries, id)| <= |entries| - 1
    decreases |entries|
  {
    if j > 0 {
      WithoutAtMost(entries[1..], id, j - 1);
    } else {
      WithoutShorter(entries[1..], id);
    }
  }

  lemma {:induction false} WithoutShorter(entries: seq<Entry>, id: string)
    ensures |Without(entries, id)| <= |entries|
    decreases |entries|
  {
    if |entries| > 0 {
      WithoutShorter(entries[1..], id);
    }
  }

  // ---------------------------------------------------------------- the register/eval race

  /** `send_request` as written: the script is evaluated (line 83) before the entry is
      pushed (line 92), so the webview's callback may run before or after the push. */
  function BridgeAsWritten(entries: seq<Entry>, id: string, payload: Json.Fields, callbackFirst: bool): (seq<Entry>, Option<Outcome>) {
    if callbackFirst then
      var (after, sent) := ResolveSpec(entries, payload, id);
      (after + [Entry(id, Some(Sender))], sent)
    else
      ResolveSpec(entries + [Entry(id, Some(Sender))], payload, id)
  }

  /** A callback that overtakes the push finds no entry: nothing is sent, and the entry
      pushed afterwards is never resolved, so its waiter is never woken. */
  lemma EarlyCallbackIsLost(entries: seq<Entry>, id: string, payload: Json.Fields)
    requires AllPending(entries) && !HasId(entries, id)
    ensures BridgeAsWritten(entries, id, payload, true) == (entries + [Entry(id, Some(Sender))], None)
    ensures HasId(BridgeAsWritten(entries, id, payload, true).0, id)
  {
    var after := entries + [Entry(id, Some(Sender))];
    assert after[|entries|].id == id;
  }

  /** `send_request` with the entry pushed before the script is evaluated: whenever the
      callback arrives it finds the entry. */
  function BridgeRegisterFirst(entries: seq<Entry>, id: string, payload: Json.Fields): (seq<Entry>, Option<Outcome>) {
    ResolveSpec(entries + [Entry(id, Some(Sender))], payload, id)
  }

  lemma RegisterFirstDelivers(entries: seq<Entry>, id: string, payload: Json.Fields)
    requires AllPending(entries) && !HasId(entries, id)
    ensures BridgeRegisterFirst(entries, id, payload) == (entries, Some(OutcomeOf(payload)))
    ensures BridgeRegisterFirst(entries, id, payload) == BridgeAsWritten(entries, id, payload, false)
  {
    RegisterThenResolve(entries, payload, id);
  }

  // ---------------------------------------------------------------- the loops of cb

  /** The `find` of `cb`. */
  method FindEntry(entries: seq<Entry>, id: string) returns (r: Option<nat>)
    ensures r == IndexOf(entries, id)
  {
    var k := 0;
    while k < |entries|
      invariant 0 <= k <= |entries|
      invariant forall j :: 0 <= j < k ==> entries[j].id != id
    {
      if entries[k].id == id {
        return Some(k);
      }
      k := k + 1;
    }
    return None;
  }

  /** The `retain` of `cb`: the entries whose id differs, in order. */
  method Retain(entries: seq<Entry>, id: string) returns (kept: seq<Entry>)
    ensures kept == Without(entries, id)
  {
    kept := [];
    var k := 0;
    while k < |entries|
      invariant 0 <= k <= |entries|
      invariant kept == Without(entries[..k], id)
    {
      assert entries[..k + 1] == entries[..k] + [entries[k]];
      WithoutAppend(entries[..k], [entries[k]], id);
      if entries[k].id != id {
        kept := kept + [entries[k]];
      }
      k := k + 1;
    }
    assert entries[..k] == entries;
  }

  // ---------------------------------------------------------------- the pool

  /** `CALLBACK_POOL`: the entries in push order. Every entry keeps its sender until
      it is resolved and removed. */
  class CallbackPool {
    var entries: seq<Entry>

    ghost predicate Valid()
      reads this
    {
      AllPending(entries)
    }

    constructor ()
      ensures Valid() && entries == []
    {
      entries := [];
    }

    /** The push of `send_request`: one entry, at the end, holding its sender. */
    method Register(id: string)
      requires Valid() && ValidId(id)
      modifies this
      ensures Valid()
      ensures entries == old(entries) + [Entry(id, Some(Sender))]
    {
      entries := entries + [Entry(id, Some(Sender))];
    }

    /** `cb(json, id)`: find the entry, take its sender, send the outcome and drop
        every entry with that id; an unknown id changes nothing. */
    method Resolve(payload: Json.Fields, id: string) returns (sent: Option<Outcome>)
      requires Valid()
      modifies this
      ensures Valid()
      ensures (entries, sent) == ResolveSpec(old(entries), payload, id)
    {
      var isError := Json.Get(payload, "err").Some?;
      var found := FindEntry(entries, id);
      sent := None;
      if found.Some? {
        var i := found.value;
        var callback := entries[i].callback;
        entries := entries[i := Entry(id, None)];
        if callback.Some? {
          if isError {
            sent := Some(Err(Json.Show(Json.Get(payload, "err").value)));
          } else {
            sent := Some(Ok(Json.Object(payload)));
          }
          WithoutIgnoresTaken(old(entries), id, i);
          WithoutPending(old(entries), id);
          entries := Retain(entries, id);
        }
      }
    }
  }
}
