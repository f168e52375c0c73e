/**
 * Batch mode: hits are buffered and sent to the tracker as one JSON post of
 * query strings once the buffer holds `BatchSize` of them, or when it is
 * flushed. How the attempt to send ends is an input; a post that reaches the
 * transport is recorded as a `BatchPost`.
 */
module Batch {
  import opened Strings
  import opened Configuration
  import opened Matomo

  /** Number of buffered hits that triggers a send. */
  const BatchSize: nat := 200

  /** How an attempt to send the buffer ends. */
  datatype Outcome =
    | MarshalFails     // the JSON payload cannot be built
    | RequestFails     // the HTTP request cannot be built from the tracker URL
    | TransportFails   // the request goes out but no response comes back
    | Responds         // Matomo answers, with any status

  /** One batch post: its target, the query string of every hit and the token. */
  datatype BatchPost = BatchPost(endpoint: string, requests: seq<string>, tokenAuth: string)

  /** The query string of one buffered hit. */
  function Query(f: Form): string {
    "?" + Encode(f)
  }

  /** The `requests` array of a batch payload. */
  function Requests(buffer: seq<Form>): (reqs: seq<string>)
    ensures |reqs| == |buffer| && forall i :: 0 <= i < |buffer| ==> reqs[i] == Query(buffer[i])
  {
    seq(|buffer|, i requires 0 <= i < |buffer| => Query(buffer[i]))
  }

  /** Each request of a batch is `?` and its hit's pairs in key order, which split back out of it. */
  lemma RequestDecodes(buffer: seq<Form>, i: nat)
    requires i < |buffer| && |buffer[i]| >= 1
    requires forall j :: 0 <= j < |buffer[i]| ==> '&' !in buffer[i][j].key && '&' !in buffer[i][j].value
    ensures Requests(buffer)[i][0] == '?'
    ensures Split(Requests(buffer)[i][1..], '&') == Pairs(SortByKey(buffer[i]))
  {
    var r := Requests(buffer)[i];
    assert r[1..] == Encode(buffer[i]);
    EncodeSplits(buffer[i]);
  }

  /** The loop of `sendBatch` that fills the `requests` array. */
  method BatchRequests(buffer: seq<Form>) returns (reqs: seq<string>)
    ensures reqs == Requests(buffer)
  {
    var a := new string[|buffer|];
    for i := 0 to |buffer|
      invariant forall j :: 0 <= j < i ==> a[j] == Query(buffer[j])
    {
      a[i] := "?" + Encode(buffer[i]);
    }
    reqs := a[..];
  }

  /** The post a non-empty buffer turns into. */
  function BatchOf(m: MatomoSection, buffer: seq<Form>): BatchPost {
    BatchPost(m.trackerUrl + TrackerEndpoint, Requests(buffer), m.tokenAuth)
  }

  /** The outcome puts a post on the wire. */
  predicate Attempted(outcome: Outcome) {
    outcome == TransportFails || outcome == Responds
  }

  /** The hit buffer and the batch posts made so far. */
  class LogBuffer {
    var buffer: seq<Form>
    var sent: seq<BatchPost>

    constructor ()
      ensures buffer == [] && sent == []
    {
      buffer := [];
      sent := [];
    }

    /** The buffer never reaches the batch size between calls while sends succeed. */
    predicate Valid()
      reads this
    {
      |buffer| < BatchSize
    }

    /** `sendBatch`: post the whole buffer; it is emptied only when Matomo responds. */
    method SendBatch(config: Config, outcome: Outcome)
      modifies this
      ensures old(buffer) == [] ==> buffer == [] && sent == old(sent)
      ensures old(buffer) != [] ==>
                sent == old(sent) + (if Attempted(outcome) then [BatchOf(config.matomo, old(buffer))] else [])
      ensures old(buffer) != [] ==> buffer == if outcome == Responds then [] else old(buffer)
    {
      if |buffer| == 0 {
        return;
      }
      var requests := BatchRequests(buffer);
      if outcome == MarshalFails {
        return;
      }
      var target := config.matomo.trackerUrl + TrackerEndpoint;
      if outcome == RequestFails {
        return;
      }
      sent := sent + [BatchPost(target, requests, config.matomo.tokenAuth)];
      if outcome == TransportFails {
        return;
      }
      buffer := [];
    }

    /** `addLogToBatch`: buffer the hit and send once the batch size is reached. */
    method AddLogToBatch(log: Form, config: Config, outcome: Outcome)
      modifies this
      ensures |old(buffer)| + 1 < BatchSize ==> buffer == old(buffer) + [log] && sent == old(sent)
      ensures |old(buffer)| + 1 >= BatchSize ==>
                sent == old(sent) + (if Attempted(outcome) then [BatchOf(config.matomo, old(buffer) + [log])] else [])
                && buffer == if outcome == Responds then [] else old(buffer) + [log]
      ensures old(Valid()) && |old(buffer)| + 1 >= BatchSize ==> |old(buffer)| + 1 == BatchSize
      ensures old(Valid()) && (outcome == Responds || |old(buffer)| + 1 < BatchSize) ==> Valid()
    {
      buffer := buffer + [log];
      if |buffer| >= BatchSize {
        SendBatch(config, outcome);
      }
    }

    /** `flushBatch`: send whatever is buffered. */
    method FlushBatch(config: Config, outcome: Outcome)
      modifies this
      ensures old(buffer) == [] ==> buffer == [] && sent == old(sent)
      ensures old(buffer) != [] ==>
                sent == old(sent) + (if Attempted(outcome) then [BatchOf(config.matomo, old(buffer))] else [])
      ensures old(buffer) != [] ==> buffer == if outcome == Responds then [] else old(buffer)
    {
      SendBatch(config, outcome);
    }
  }
}
