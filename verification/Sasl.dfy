/** Splitting a SASL response into AUTHENTICATE messages (`xirc/genmsg.go`) and putting it together again
    (`downstream.go`). Responses are modelled in their base64 form, whose length is a multiple of four. */
module Sasl {
  import opened Text

  const MAX_SASL_LENGTH: nat := 400
  const MAX_RESPONSE_LENGTH: nat := 10240

  const MECHANISMS: seq<string> := ["PLAIN", "OAUTHBEARER", "ANONYMOUS", "EXTERNAL"]

  // ---- Sending

  /** Chunks of 400 bytes, the last one shorter; "+" stands for an empty one. */
  function Chunks(encoded: string): (r: seq<string>)
    ensures |r| == |encoded| / MAX_SASL_LENGTH + 1
    decreases |encoded|
  {
    if |encoded| < MAX_SASL_LENGTH then [Chunk(encoded)]
    else [encoded[..MAX_SASL_LENGTH]] + Chunks(encoded[MAX_SASL_LENGTH..])
  }

  function Chunk(part: string): string {
    if part == "" then "+" else part
  }

  method GenerateSASL(encoded: string) returns (msgs: seq<string>)
    ensures msgs == Chunks(encoded)
  {
    msgs := [];
    var i := 0;
    assert encoded[0..] == encoded;
    while i <= |encoded|
      invariant 0 <= i
      invariant if i <= |encoded| then msgs + Chunks(encoded[i..]) == Chunks(encoded) else msgs == Chunks(encoded)
      decreases |encoded| + 1 - i
    {
      var j := i + MAX_SASL_LENGTH;
      if j > |encoded| {
        j := |encoded|;
      }
      var chunk := encoded[i..j];
      if chunk == "" {
        chunk := "+";
      }
      ChunksStep(encoded, i, msgs);
      msgs := msgs + [chunk];
      i := i + MAX_SASL_LENGTH;
    }
  }

  lemma {:induction false} ChunksStep(encoded: string, i: nat, msgs: seq<string>)
    requires i <= |encoded|
    ensures if i + MAX_SASL_LENGTH <= |encoded|
            then msgs + Chunks(encoded[i..]) == msgs + [encoded[i..i + MAX_SASL_LENGTH]]
                + Chunks(encoded[i + MAX_SASL_LENGTH..])
            else msgs + Chunks(encoded[i..]) == msgs + [Chunk(encoded[i..|encoded|])]
  {
    var rest := encoded[i..];
    if i + MAX_SASL_LENGTH <= |encoded| {
      assert rest[..MAX_SASL_LENGTH] == encoded[i..i + MAX_SASL_LENGTH];
      assert rest[MAX_SASL_LENGTH..] == encoded[i + MAX_SASL_LENGTH..];
    } else {
      assert encoded[i..|encoded|] == rest;
    }
  }

  // ---- Receiving

  /** What an AUTHENTICATE message leads to. */
  datatype Outcome =
    | NotEnabled | Missing | Aborted | Unsupported | Started | Waiting | TooLong | Invalid
    | Response(encoded: string)

  /** An exchange under way, with what has come of its response. */
  type Exchange = Option<string>

  function Received(param: string): string {
    if param == "+" then "" else param
  }

  /** A message within an exchange; `valid` tells proper base64. */
  function Continue(pending: string, param: string, valid: string -> bool): (Exchange, Outcome) {
    var chunk := Received(param);
    if |pending| + |chunk| > MAX_RESPONSE_LENGTH then (None, TooLong)
    else if |chunk| == MAX_SASL_LENGTH then (Some(pending + chunk), Waiting)
    else if valid(pending + chunk) then (Some(""), Response(pending + chunk))
    else (None, Invalid)
  }

  function Authenticate(e: Exchange, param: string, valid: string -> bool): (Exchange, Outcome) {
    if param == "*" then (None, Aborted)
    else if e.Some? then Continue(e.value, param, valid)
    else if ToUpper(param) in MECHANISMS then (Some(""), Started)
    else (None, Unsupported)
  }

  class DownstreamSasl {
    var sasl: Exchange

    /** `handleAuthenticate`, up to handing the response to the mechanism. */
    method HandleAuthenticate(enabled: bool, params: seq<string>, valid: string -> bool) returns (outcome: Outcome)
      modifies this
      ensures if !enabled then outcome == NotEnabled && sasl == None
              else if params == [] then outcome == Missing && sasl == None
              else (sasl, outcome) == Authenticate(old(sasl), params[0], valid)
    {
      if !enabled || params == [] || params[0] == "*" {
        sasl := None;
        return if !enabled then NotEnabled else if params == [] then Missing else Aborted;
      }
      if sasl.None? {
        var mech := ToUpper(params[0]);
        if mech !in MECHANISMS {
          return Unsupported;
        }
        sasl := Some("");
        return Started;
      }
      var chunk := params[0];
      if chunk == "+" {
        chunk := "";
      }
      if |sasl.value| + |chunk| > 10 * 1024 {
        sasl := None;
        return TooLong;
      }
      sasl := Some(sasl.value + chunk);
      if |chunk| == MAX_SASL_LENGTH {
        return Waiting;
      }
      var resp := sasl.value;
      if !valid(resp) {
        sasl := None;
        return Invalid;
      }
      sasl := Some("");
      outcome := Response(resp);
    }
  }

  /** The exchange and the outcomes after several messages. */
  function Feed(e: Exchange, params: seq<string>, valid: string -> bool): (Exchange, seq<Outcome>)
    decreases |params|
  {
    if params == [] then (e, [])
    else
      var (e', outcome) := Authenticate(e, params[0], valid);
      var (end, outcomes) := Feed(e', params[1..], valid);
      (end, [outcome] + outcomes)
  }

  /** Whatever a client sends, what is kept of a response is whole chunks, so never more than 10000 bytes. */
  predicate Bounded(e: Exchange) {
    e.Some? ==> |e.value| % MAX_SASL_LENGTH == 0 && |e.value| <= 10000
  }

  lemma {:induction false} FeedBounded(e: Exchange, params: seq<string>, valid: string -> bool)
    requires Bounded(e)
    ensures Bounded(Feed(e, params, valid).0)
    decreases |params|
  {
    if params != [] {
      var (e', outcome) := Authenticate(e, params[0], valid);
      assert Bounded(e');
      FeedBounded(e', params[1..], valid);
    }
  }

  // ---- Round trip

  function Waits(n: nat): (r: seq<Outcome>)
    ensures |r| == n && forall i :: 0 <= i < n ==> r[i] == Waiting
  {
    seq(n, i => Waiting)
  }

  /** A chunk of a response is neither taken for the empty one nor for giving up. */
  lemma {:induction false} ChunkIsData(part: string)
    requires |part| % 4 == 0
    ensures Received(Chunk(part)) == part && Chunk(part) != "*"
  {
  }

  lemma {:induction false} FeedOne(e: Exchange, param: string, valid: string -> bool)
    ensures Feed(e, [param], valid) == (Authenticate(e, param, valid).0, [Authenticate(e, param, valid).1])
  {
    var (e', outcome) := Authenticate(e, param, valid);
    assert [param][1..] == [] && Feed(e', [], valid) == (e', []) && [outcome] + [] == [outcome];
  }

  lemma {:induction false} FeedCons(e: Exchange, param: string, params: seq<string>, valid: string -> bool)
    ensures var (e', outcome) := Authenticate(e, param, valid);
            var (end, outcomes) := Feed(e', params, valid);
            Feed(e, [param] + params, valid) == (end, [outcome] + outcomes)
  {
    assert ([param] + params)[1..] == params;
  }

  /** The rest of a response that is not too long completes it, with its last chunk. */
  lemma {:induction false} FeedsRest(pending: string, rest: string, valid: string -> bool)
    requires |rest| % 4 == 0 && |pending| + |rest| <= MAX_RESPONSE_LENGTH && valid(pending + rest)
    ensures Feed(Some(pending), Chunks(rest), valid) == (Some(""), Waits(|rest| / MAX_SASL_LENGTH)
        + [Response(pending + rest)])
    decreases |rest|
  {
    var n := MAX_SASL_LENGTH;
    if |rest| < n {
      ChunkIsData(rest);
      FeedOne(Some(pending), Chunk(rest), valid);
      assert Waits(0) + [Response(pending + rest)] == [Response(pending + rest)];
    } else {
      var chunk, tail := rest[..n], rest[n..];
      assert pending + rest == pending + chunk + tail;
      FeedsRest(pending + chunk, tail, valid);
      FeedCons(Some(pending), chunk, Chunks(tail), valid);
      assert [Waiting] + Waits(|tail| / n) == Waits(|rest| / n);
      assert [Waiting] + (Waits(|tail| / n) + [Response(pending + rest)]) == Waits(|rest| / n)
          + [Response(pending + rest)];
    }
  }

  /** The rest of a response that is too long is refused. */
  lemma {:induction false} FeedsTooLong(pending: string, rest: string, valid: string -> bool)
    requires |rest| % 4 == 0 && |pending| <= MAX_RESPONSE_LENGTH < |pending| + |rest|
    ensures TooLong in Feed(Some(pending), Chunks(rest), valid).1
    decreases |rest|
  {
    var n := MAX_SASL_LENGTH;
    if |rest| < n {
      ChunkIsData(rest);
      FeedOne(Some(pending), Chunk(rest), valid);
    } else {
      var chunk, tail := rest[..n], rest[n..];
      FeedCons(Some(pending), chunk, Chunks(tail), valid);
      if |pending| + n <= MAX_RESPONSE_LENGTH {
        FeedsTooLong(pending + chunk, tail, valid);
      } else {
        assert Authenticate(Some(pending), chunk, valid).1 == TooLong;
      }
    }
  }

  /** The chunks of a response put together again give exactly the response, with the last chunk and no earlier, if and
      only if it is at most 10240 bytes long. */
  lemma {:induction false} RoundTrip(encoded: string, valid: string -> bool)
    requires |encoded| % 4 == 0 && valid(encoded)
    ensures Feed(Some(""), Chunks(encoded), valid) == (Some(""), Waits(|Chunks(encoded)| - 1) + [Response(encoded)])
        <==> |encoded| <= MAX_RESPONSE_LENGTH
  {
    assert "" + encoded == encoded;
    if |encoded| <= MAX_RESPONSE_LENGTH {
      FeedsRest("", encoded, valid);
    } else {
      FeedsTooLong("", encoded, valid);
      assert TooLong !in Waits(|Chunks(encoded)| - 1) + [Response(encoded)];
    }
  }
}
