/** The evidence chain of one case: appending, verifying, and what a healthy report proves. */
module EvidenceChain {
  import opened Wrappers
  import opened Hashing

  datatype EventType = Register | Verify | Transfer | Note | OtherType(name: string)

  datatype Envelope = Envelope(kind: EventType, sequence: int, prev: Digest, actor: string, at: int, payload: string)

  /** A stored row; `canonical` is the text its digest is taken of. */
  datatype Event = Event(sequence: int, kind: EventType, actor: string, canonical: string, prev: Digest, digest: Digest,
    at: int)

  /**
   SHA-256 of a text, the canonical JSON of an envelope with a well-formed payload, and whether a text
   re-encodes to itself.
   */
  datatype Env = Env(hash: string -> Digest, encode: Envelope -> Option<string>, stable: string -> bool)

  const ZERO_DIGEST: Digest := "0000000000000000000000000000000000000000000000000000000000000000"

  // ---- Appending

  datatype AppendError = InvalidEventType | BadPayload

  datatype Input = Input(kind: EventType, actor: string, at: int, payload: string)

  /** The envelope that continues a chain; a time before the last event's is moved up to it. */
  function NextEnvelope(chain: seq<Event>, input: Input): Envelope {
    if chain == [] then Envelope(input.kind, 1, ZERO_DIGEST, input.actor, input.at, input.payload)
    else
      var last := chain[|chain| - 1];
      Envelope(input.kind, last.sequence + 1, last.digest, input.actor, if input.at < last.at then last.at
        else input.at, input.payload)
  }

  function Stored(env: Env, e: Envelope, text: string): Event {
    Event(e.sequence, e.kind, e.actor, text, e.prev, env.hash(text), e.at)
  }

  function Append(env: Env, chain: seq<Event>, input: Input): Result<seq<Event>, AppendError> {
    if input.kind.OtherType? then Err(InvalidEventType)
    else
      match env.encode(NextEnvelope(chain, input))
      case None => Err(BadPayload)
      case Some(text) => Ok(chain + [Stored(env, NextEnvelope(chain, input), text)])
  }

  /** The rows after a series of appends, of which failed ones leave nothing. */
  function AppendAll(env: Env, chain: seq<Event>, inputs: seq<Input>): seq<Event>
    decreases |inputs|
  {
    if inputs == [] then chain
    else
      match Append(env, chain, inputs[0])
      case Ok(longer) => AppendAll(env, longer, inputs[1..])
      case Err(_) => AppendAll(env, chain, inputs[1..])
  }

  // ---- Verifying

  datatype Code = Missing | BadGenesis | BrokenLink | Tampered | OutOfOrder
  datatype Issue = Issue(sequence: int, code: Code)

  datatype Report = Report(count: nat, healthy: bool, issues: seq<Issue>, headSequence: int, headDigest: Digest)

  /** Row k follows the row before it, or begins the chain. */
  ghost predicate LinkOk(env: Env, events: seq<Event>, k: nat)
    requires k < |events|
  {
    var e := events[k];
    && e.sequence == k + 1
    && e.prev == (if k == 0 then ZERO_DIGEST else events[k - 1].digest)
    && env.stable(e.canonical) && env.hash(e.canonical) == e.digest
    && (k > 0 ==> events[k - 1].at <= e.at)
  }

  /** What a healthy chain is. */
  ghost predicate Intact(env: Env, events: seq<Event>) {
    forall k | 0 <= k < |events| :: LinkOk(env, events, k)
  }

  /** Rows come by sequence number, which is unique in a case. */
  ghost predicate Ordered(events: seq<Event>) {
    forall j, k | 0 <= j < k < |events| :: events[j].sequence < events[k].sequence
  }

  // ---- What each issue says

  /** A row's number and predecessor. */
  ghost predicate LinkIssue(events: seq<Event>, k: nat, x: Issue)
    requires k < |events|
  {
    var e := events[k];
    match x.code
    case Missing =>
      if k == 0 then e.sequence != 1 && x.sequence == e.sequence
      else events[k - 1].sequence < x.sequence < e.sequence
    case BadGenesis => k == 0 && e.prev != ZERO_DIGEST && x.sequence == e.sequence
    case BrokenLink => k > 0 && e.prev != events[k - 1].digest && x.sequence == e.sequence
    case _ => false
  }

  /** A row's text, digest and time. */
  ghost predicate ContentIssue(env: Env, events: seq<Event>, k: nat, x: Issue)
    requires k < |events|
  {
    var e := events[k];
    match x.code
    case Tampered => (!env.stable(e.canonical) || env.hash(e.canonical) != e.digest) && x.sequence == e.sequence
    case OutOfOrder => k > 0 && e.at < events[k - 1].at && x.sequence == e.sequence
    case _ => false
  }

  ghost predicate RowIssue(env: Env, events: seq<Event>, k: nat, x: Issue)
    requires k < |events|
  {
    LinkIssue(events, k, x) || ContentIssue(env, events, k, x)
  }

  ghost predicate IssueHolds(env: Env, events: seq<Event>, n: nat, x: Issue)
    requires n <= |events|
  {
    exists k :: 0 <= k < n && RowIssue(env, events, k, x)
  }

  // ---- The checks

  /** The numbers from `from` up to `to` are missing. */
  method Gaps(from: int, to: int) returns (issues: seq<Issue>)
    ensures issues == [] <==> from >= to
    ensures forall x :: x in issues <==> from <= x.sequence < to && x.code.Missing?
  {
    issues := [];
    var missing := from;
    while missing < to
      invariant from <= missing && (missing <= to || issues == [])
      invariant issues == [] <==> missing == from
      invariant forall x :: x in issues <==> from <= x.sequence < missing && x.code.Missing?
    {
      issues := issues + [Issue(missing, Missing)];
      missing := missing + 1;
    }
  }

  /** Place in the chain. */
  method CheckLink(events: seq<Event>, k: nat) returns (healthy: bool, issues: seq<Issue>)
    requires k < |events| && Ordered(events)
    ensures healthy <==>
      && events[k].sequence == (if k == 0 then 1 else events[k - 1].sequence + 1)
      && events[k].prev == (if k == 0 then ZERO_DIGEST else events[k - 1].digest)
    ensures healthy <==> issues == []
    ensures forall x :: x in issues <==> LinkIssue(events, k, x)
  {
    var e := events[k];
    healthy, issues := true, [];
    if k == 0 {
      if e.sequence != 1 {
        healthy, issues := false, issues + [Issue(e.sequence, Missing)];
      }
      if e.prev != ZERO_DIGEST {
        healthy, issues := false, issues + [Issue(e.sequence, BadGenesis)];
      }
    } else {
      assert events[k - 1].sequence < e.sequence;
      if e.sequence != events[k - 1].sequence + 1 {
        healthy := false;
        issues := Gaps(events[k - 1].sequence + 1, e.sequence);
      }
      if e.prev != events[k - 1].digest {
        healthy, issues := false, issues + [Issue(e.sequence, BrokenLink)];
      }
    }
  }

  /** Its own text and digest, and its time. */
  method CheckContent(env: Env, events: seq<Event>, k: nat) returns (healthy: bool, issues: seq<Issue>)
    requires k < |events|
    ensures healthy <==>
      && env.stable(events[k].canonical) && env.hash(events[k].canonical) == events[k].digest
      && (k > 0 ==> events[k - 1].at <= events[k].at)
    ensures healthy <==> issues == []
    ensures forall x :: x in issues <==> ContentIssue(env, events, k, x)
  {
    var e := events[k];
    healthy, issues := true, [];
    if !env.stable(e.canonical) {
      healthy, issues := false, issues + [Issue(e.sequence, Tampered)];
    }
    if env.hash(e.canonical) != e.digest {
      healthy, issues := false, issues + [Issue(e.sequence, Tampered)];
    }
    if k > 0 && e.at < events[k - 1].at {
      healthy, issues := false, issues + [Issue(e.sequence, OutOfOrder)];
    }
  }

  /** A report lists exactly the issues that hold, and is healthy exactly for an intact chain, which has none. */
  method VerifyChain(env: Env, events: seq<Event>) returns (r: Report)
    requires Ordered(events)
    ensures forall x :: x in r.issues <==> IssueHolds(env, events, |events|, x)
    ensures r.healthy <==> Intact(env, events)
    ensures r.healthy <==> r.issues == []
    ensures r.count == |events|
    ensures events != [] ==>
      r.headSequence == events[|events| - 1].sequence && r.headDigest == events[|events| - 1].digest
  {
    var healthy, issues := true, [];
    var k := 0;
    while k < |events|
      invariant 0 <= k <= |events|
      invariant healthy <==> forall j | 0 <= j < k :: LinkOk(env, events, j)
      invariant healthy <==> issues == []
      invariant forall x :: x in issues <==> IssueHolds(env, events, k, x)
    {
      var linked, broken := CheckLink(events, k);
      var genuine, tampered := CheckContent(env, events, k);
      LinkStep(env, events, k, linked, genuine, healthy);
      IssueStep(env, events, k);
      assert forall x :: RowIssue(env, events, k, x) <==> x in broken || x in tampered;
      healthy := healthy && linked && genuine;
      issues := issues + broken + tampered;
      k := k + 1;
    }
    var head := if events == [] then (0, "") else (events[|events| - 1].sequence, events[|events| - 1].digest);
    r := Report(|events|, healthy, issues, head.0, head.1);
  }

  lemma IssueStep(env: Env, events: seq<Event>, k: nat)
    requires k < |events|
    ensures forall x ::
              IssueHolds(env, events, k + 1, x) <==> IssueHolds(env, events, k, x) || RowIssue(env, events, k, x)
  {
    forall x
      ensures IssueHolds(env, events, k + 1, x) <==> IssueHolds(env, events, k, x) || RowIssue(env, events, k, x)
    {
      if IssueHolds(env, events, k, x) {
        var j :| 0 <= j < k && RowIssue(env, events, j, x);
      }
    }
  }

  lemma LinkStep(env: Env, events: seq<Event>, k: nat, linked: bool, genuine: bool, healthy: bool)
    requires k < |events|
    requires healthy <==> forall j | 0 <= j < k :: LinkOk(env, events, j)
    requires linked <==>
      && events[k].sequence == (if k == 0 then 1 else events[k - 1].sequence + 1)
      && events[k].prev == (if k == 0 then ZERO_DIGEST else events[k - 1].digest)
    requires genuine <==>
      && env.stable(events[k].canonical) && env.hash(events[k].canonical) == events[k].digest
      && (k > 0 ==> events[k - 1].at <= events[k].at)
    ensures (healthy && linked && genuine) <==> forall j | 0 <= j < k + 1 :: LinkOk(env, events, j)
  {
    if healthy && k > 0 {
      assert LinkOk(env, events, k - 1);
    }
    assert healthy ==> (LinkOk(env, events, k) <==> linked && genuine);
    if forall j | 0 <= j < k + 1 :: LinkOk(env, events, j) {
      assert LinkOk(env, events, k);
    }
  }

  // ---- Appended chains are healthy

  /** Encoding is canonical: what it produces re-encodes to itself. */
  ghost predicate Canonical(env: Env) {
    forall e | env.encode(e).Some? :: env.stable(env.encode(e).value)
  }

  /** Rows made by `Append`. */
  ghost predicate Built(env: Env, events: seq<Event>) {
    forall k | 0 <= k < |events| :: BuiltRow(env, events, k)
  }

  /** The envelope a row was made from. */
  function EnvelopeOf(events: seq<Event>, k: nat, payload: string): Envelope
    requires k < |events|
  {
    Envelope(events[k].kind, events[k].sequence, events[k].prev, events[k].actor, events[k].at, payload)
  }

  ghost predicate BuiltRow(env: Env, events: seq<Event>, k: nat)
    requires k < |events|
  {
    && events[k].sequence == k + 1
    && events[k].prev == (if k == 0 then ZERO_DIGEST else events[k - 1].digest)
    && events[k].digest == env.hash(events[k].canonical)
    && (k > 0 ==> events[k - 1].at <= events[k].at)
    && exists payload :: env.encode(EnvelopeOf(events, k, payload)) == Some(events[k].canonical)
  }

  /**
   An event of a known type is appended exactly if its payload can be encoded. It is the input's own, numbered
   next, linked to the last digest, not earlier than the last event, and its digest is that of the text of all this.
   */
  lemma AppendIff(env: Env, chain: seq<Event>, input: Input)
    requires Built(env, chain)
    ensures var r := Append(env, chain, input);
            var n := |chain|;
            var prev := if n == 0 then ZERO_DIGEST else chain[n - 1].digest;
            var at := if n > 0 && input.at < chain[n - 1].at then chain[n - 1].at else input.at;
            var text := env.encode(Envelope(input.kind, n + 1, prev, input.actor, at, input.payload));
            && (r.Ok? <==> !input.kind.OtherType? && text.Some?)
            && (r.Ok? ==> r.value == chain + [Event(n + 1, input.kind, input.actor, text.value, prev,
                  env.hash(text.value), at)])
  {
    if chain != [] {
      assert BuiltRow(env, chain, |chain| - 1);
    }
  }

  lemma AppendBuilds(env: Env, chain: seq<Event>, input: Input)
    requires Built(env, chain)
    ensures Append(env, chain, input).Ok? ==> Built(env, Append(env, chain, input).value)
  {
    var r := Append(env, chain, input);
    if r.Ok? {
      var longer := r.value;
      forall k | 0 <= k < |longer|
        ensures BuiltRow(env, longer, k)
      {
        if k < |chain| {
          assert BuiltRow(env, chain, k);
          var payload :| env.encode(EnvelopeOf(chain, k, payload)) == Some(chain[k].canonical);
          assert EnvelopeOf(longer, k, payload) == EnvelopeOf(chain, k, payload);
        } else {
          assert k > 0 ==> BuiltRow(env, chain, k - 1);
          assert EnvelopeOf(longer, k, input.payload) == NextEnvelope(chain, input);
        }
      }
    }
  }

  /** Any appends, under any clocks, keep a chain built. */
  lemma {:induction false} AppendAllBuilds(env: Env, chain: seq<Event>, inputs: seq<Input>)
    requires Built(env, chain)
    ensures Built(env, AppendAll(env, chain, inputs)) && chain <= AppendAll(env, chain, inputs)
    decreases |inputs|
  {
    if inputs == [] {
    } else {
      AppendBuilds(env, chain, inputs[0]);
      match Append(env, chain, inputs[0])
      case Ok(longer) => AppendAllBuilds(env, longer, inputs[1..]);
      case Err(_) => AppendAllBuilds(env, chain, inputs[1..]);
    }
  }

  /** A chain made by appending alone is reported healthy. */
  lemma AppendedIsIntact(env: Env, inputs: seq<Input>)
    requires Canonical(env)
    ensures Ordered(AppendAll(env, [], inputs)) && Intact(env, AppendAll(env, [], inputs))
  {
    var events := AppendAll(env, [], inputs);
    AppendAllBuilds(env, [], inputs);
    BuiltIsIntact(env, events);
  }

  lemma BuiltIsIntact(env: Env, events: seq<Event>)
    requires Canonical(env) && Built(env, events)
    ensures Ordered(events) && Intact(env, events)
  {
    forall k | 0 <= k < |events|
      ensures LinkOk(env, events, k) && events[k].sequence == k + 1
    {
      assert BuiltRow(env, events, k);
      var payload :| env.encode(EnvelopeOf(events, k, payload)) == Some(events[k].canonical);
    }
  }

  // ---- Deletions

  /** The rows left when only those numbered in `keep` remain. */
  function Kept(events: seq<Event>, keep: set<int>): (r: seq<Event>)
    ensures |r| <= |events|
    ensures forall e | e in r :: e in events
  {
    if events == [] then []
    else
      var last := events[|events| - 1];
      Kept(events[..|events| - 1], keep) + if last.sequence in keep then [last] else []
  }

  /** Deleting rows of an intact chain goes unnoticed exactly when a prefix is left. */
  lemma DeletionIsFound(env: Env, events: seq<Event>, keep: set<int>)
    requires Intact(env, events)
    ensures Intact(env, Kept(events, keep)) <==> exists n :: 0 <= n <= |events| && Kept(events, keep) == events[..n]
  {
    var left := Kept(events, keep);
    if n :| 0 <= n <= |events| && left == events[..n] {
      forall k | 0 <= k < n
        ensures LinkOk(env, events[..n], k)
      {
        assert LinkOk(env, events, k);
      }
    }
    if Intact(env, left) {
      forall k | 0 <= k < |left|
        ensures left[k] == events[k]
      {
        assert LinkOk(env, left, k);
        assert left[k] in left;
        var j :| 0 <= j < |events| && events[j] == left[k];
        assert LinkOk(env, events, j);
      }
      assert left == events[..|left|];
    }
  }

  // ---- One head, one chain

  ghost predicate CollisionFree(env: Env) {
    && (forall a, b :: env.hash(a) == env.hash(b) ==> a == b)
    && (forall d, e | env.encode(d).Some? && env.encode(d) == env.encode(e) :: SameEnvelope(d, e))
  }

  /** Payloads are compared after decoding, so the texts need not be the same. */
  ghost predicate SameEnvelope(d: Envelope, e: Envelope) {
    d.kind == e.kind && d.sequence == e.sequence && d.prev == e.prev && d.actor == e.actor && d.at == e.at
  }

  lemma SameDigestSameRow(env: Env, a: seq<Event>, b: seq<Event>, j: nat, k: nat)
    requires CollisionFree(env) && Built(env, a) && Built(env, b)
    requires j < |a| && k < |b| && a[j].digest == b[k].digest
    ensures a[j] == b[k]
  {
    assert BuiltRow(env, a, j) && BuiltRow(env, b, k);
    assert env.hash(a[j].canonical) == env.hash(b[k].canonical);
    var p :| env.encode(EnvelopeOf(a, j, p)) == Some(a[j].canonical);
    var q :| env.encode(EnvelopeOf(b, k, q)) == Some(b[k].canonical);
    assert SameEnvelope(EnvelopeOf(a, j, p), EnvelopeOf(b, k, q));
  }

  /** Two chains made by appending whose heads have the same digest are the same chain. */
  lemma {:induction false} HeadDeterminesChain(env: Env, a: seq<Event>, b: seq<Event>)
    requires CollisionFree(env) && Built(env, a) && Built(env, b)
    requires a != [] && b != [] && a[|a| - 1].digest == b[|b| - 1].digest
    ensures a == b
  {
    var j, k := |a| - 1, |b| - 1;
    SameDigestSameRow(env, a, b, j, k);
    assert BuiltRow(env, a, j) && BuiltRow(env, b, k);
    assert |a| == |b|;
    if j > 0 {
      BuiltPrefix(env, a);
      BuiltPrefix(env, b);
      HeadDeterminesChain(env, a[..j], b[..k]);
    }
    assert a == a[..j] + [a[j]] && b == b[..k] + [b[k]];
  }

  lemma BuiltPrefix(env: Env, a: seq<Event>)
    requires Built(env, a) && a != []
    ensures Built(env, a[..|a| - 1])
  {
    var rest := a[..|a| - 1];
    forall k | 0 <= k < |rest|
      ensures BuiltRow(env, rest, k)
    {
      assert BuiltRow(env, a, k);
      var p :| env.encode(EnvelopeOf(a, k, p)) == Some(a[k].canonical);
      assert EnvelopeOf(rest, k, p) == EnvelopeOf(a, k, p);
    }
  }

  // ---- Rewriting

  /**
   What rewriting row k to `e` has to respect to go unnoticed: number and predecessor, a text that
   goes with its digest, the digest the next row names, and times in order. Nothing compares the
   text with the row's own type, actor, time, number or predecessor.
   */
  ghost predicate Unnoticed(env: Env, events: seq<Event>, k: nat, e: Event)
    requires k < |events|
  {
    && e.sequence == events[k].sequence && e.prev == events[k].prev
    && env.stable(e.canonical) && env.hash(e.canonical) == e.digest
    && (k + 1 < |events| ==> e.digest == events[k].digest && e.at <= events[k + 1].at)
    && (k > 0 ==> events[k - 1].at <= e.at)
  }

  /** Rewriting a row of an intact chain is reported exactly when it breaks one of these. */
  lemma RewriteUnnoticedIff(env: Env, events: seq<Event>, k: nat, e: Event)
    requires Intact(env, events) && k < |events|
    ensures Intact(env, events[k := e]) <==> Unnoticed(env, events, k, e)
  {
    var changed := events[k := e];
    assert LinkOk(env, events, k);
    assert k + 1 < |events| ==> LinkOk(env, events, k + 1);
    if Intact(env, changed) {
      assert LinkOk(env, changed, k);
      assert k + 1 < |events| ==> LinkOk(env, changed, k + 1);
    } else {
      var j :| 0 <= j < |changed| && !LinkOk(env, changed, j);
      assert LinkOk(env, events, j);
    }
  }

  /**
   Without collisions, a rewrite of a row that is not the last goes unnoticed exactly when it keeps the
   text and changes only type, actor, and the time within its neighbours' times.
   */
  lemma InnerRewriteUnnoticedIff(env: Env, events: seq<Event>, k: nat, e: Event)
    requires Intact(env, events) && CollisionFree(env) && k + 1 < |events|
    ensures Intact(env, events[k := e]) <==>
      && e == events[k].(kind := e.kind, actor := e.actor, at := e.at)
      && e.at <= events[k + 1].at && (k > 0 ==> events[k - 1].at <= e.at)
  {
    RewriteUnnoticedIff(env, events, k, e);
    assert LinkOk(env, events, k);
  }

  /** In particular a text cannot be rewritten alone. */
  lemma RewriteIsFound(env: Env, events: seq<Event>, k: nat, text: string)
    requires Intact(env, events) && CollisionFree(env) && k < |events| && text != events[k].canonical
    ensures !Intact(env, events[k := events[k].(canonical := text)])
  {
    RewriteUnnoticedIff(env, events, k, events[k].(canonical := text));
    assert LinkOk(env, events, k);
  }

  /** The columns that link rows, worked out from texts. */
  function RelinkedRow(env: Env, e: Event, texts: seq<string>, k: nat): Event
    requires k < |texts|
  {
    var prev := if k == 0 then ZERO_DIGEST else env.hash(texts[k - 1]);
    e.(canonical := texts[k], digest := env.hash(texts[k]), prev := prev)
  }

  function Relinked(env: Env, events: seq<Event>, texts: seq<string>): (r: seq<Event>)
    requires |texts| == |events|
    ensures |r| == |events|
    ensures forall k | 0 <= k < |r| :: r[k] == RelinkedRow(env, events[k], texts, k)
  {
    seq(|events|, k requires 0 <= k < |events| => RelinkedRow(env, events[k], texts, k))
  }

  lemma RelinkedLink(env: Env, events: seq<Event>, texts: seq<string>, k: nat)
    requires Intact(env, events) && |texts| == |events| && k < |texts|
    ensures LinkOk(env, Relinked(env, events, texts), k) <==> env.stable(texts[k])
  {
    assert LinkOk(env, events, k);
  }

  /**
   Since links are read from columns and not from texts, any texts at all can take the place of an
   intact chain's: the relinked chain is intact exactly when each text is stable, and it has the old
   head digest when the last text is the old one.
   */
  lemma TextsAreNotLinked(env: Env, events: seq<Event>, texts: seq<string>)
    requires Intact(env, events) && |texts| == |events|
    ensures Intact(env, Relinked(env, events, texts)) <==> forall k | 0 <= k < |texts| :: env.stable(texts[k])
    ensures events != [] && texts[|texts| - 1] == events[|events| - 1].canonical ==>
              Relinked(env, events, texts)[|events| - 1].digest == events[|events| - 1].digest
  {
    var relinked := Relinked(env, events, texts);
    forall k | 0 <= k < |texts|
      ensures LinkOk(env, relinked, k) <==> env.stable(texts[k])
    {
      RelinkedLink(env, events, texts, k);
    }
    if events != [] {
      assert LinkOk(env, events, |events| - 1);
    }
    if Intact(env, relinked) {
      forall k | 0 <= k < |texts|
        ensures env.stable(texts[k])
      {
        assert LinkOk(env, relinked, k);
      }
    }
  }

  /** The rows of one case, extended under the case's lock. */
  class CaseChain {
    var events: seq<Event>

    constructor ()
      ensures events == []
    {
      events := [];
    }

    /** Add one event with the input's own type, actor and payload, at its time or the last event's if that is later. */
    method AppendEvent(env: Env, input: Input) returns (r: Result<Event, AppendError>)
      requires Built(env, events)
      modifies this
      ensures Built(env, events)
      ensures match Append(env, old(events), input)
              case Ok(longer) => r.Ok? && events == longer == old(events) + [r.value]
              case Err(e) => r == Err(e) && events == old(events)
      ensures r.Ok? ==> r.value.kind == input.kind && r.value.actor == input.actor && r.value.at >= input.at
    {
      AppendBuilds(env, events, input);
      if input.kind.OtherType? {
        return Err(InvalidEventType);
      }
      var sequence, prev, at := 1, ZERO_DIGEST, input.at;
      if events != [] {
        var last := events[|events| - 1];
        sequence, prev := last.sequence + 1, last.digest;
        if at < last.at {
          at := last.at;
        }
      }
      var text := env.encode(Envelope(input.kind, sequence, prev, input.actor, at, input.payload));
      if text.None? {
        return Err(BadPayload);
      }
      var event := Event(sequence, input.kind, input.actor, text.value, prev, env.hash(text.value), at);
      events := events + [event];
      r := Ok(event);
    }
  }
}
