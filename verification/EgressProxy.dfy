/** The certified egress proxy between its awaits (benchmarks/src/harness/certified-egress-proxy.ts).
    Every method is one stretch of code that runs without interruption, so any order of calls
    is an interleaving. A cell or request object is its index in the list of all of them. */
module EgressProxy {
  import opened Options

  type Model = string
  type Body = string   // bytes; its hash is the body itself

  const MAX_REQUEST_BYTES := 16 * 1024 * 1024
  const MAX_BUFFERED_REQUEST_BYTES := 2 * MAX_REQUEST_BYTES
  const MAX_CONCURRENT_REQUESTS := 4

  lemma LimitsSpelled()
    ensures MAX_REQUEST_BYTES == 16777216 && MAX_BUFFERED_REQUEST_BYTES == 33554432 && MAX_CONCURRENT_REQUESTS == 4
  {
  }

  datatype Cell = Cell(
    name: string, pending: int, rejected: nat, completed: nat, nonSuccess: nat, missingModel: nat, mismatchedModel: nat,
    requestCount: nat, requestModels: seq<Model>, responseModels: seq<Model>, requestHashes: seq<Body>)

  datatype Evidence = Evidence(
    requestCount: nat, requestModels: seq<Model>, responseModels: seq<Model>, requestHashes: seq<Body>)

  datatype Phase =
    | Reading          // awaiting the body
    | ReadFailed       // the body was refused or the client went away
    | ReadDone         // the body is complete
    | Upstream         // awaiting the upstream response
    | Resolved         // the response ended
    | Failed           // the upstream exchange failed
    | Leaving(failed: bool)   // forward has returned or thrown
    | Gone             // no longer in flight

  /** The end of an upstream response: was the status 2xx, and the models it named. */
  datatype Answer = Answer(success: bool, models: seq<Model>)

  /** `model` is the one named by the parsed body of a completion request. */
  datatype Request = Request(
    cell: Option<nat>, completion: bool, phase: Phase, body: Body, model: Option<Model>,
    admitted: bool, answer: Option<Answer>)

  // ---- totals over requests

  function Total(rs: seq<Request>, f: Request -> nat): nat {
    if rs == [] then 0 else Total(rs[..|rs| - 1], f) + f(rs[|rs| - 1])
  }

  lemma {:induction false} TotalUpdate(rs: seq<Request>, i: nat, r: Request, f: Request -> nat)
    requires i < |rs|
    ensures Total(rs[i := r], f) + f(rs[i]) == Total(rs, f) + f(r)
    decreases |rs|
  {
    var n := |rs| - 1;
    if i == n {
      assert rs[i := r][..n] == rs[..n];
    } else {
      TotalUpdate(rs[..n], i, r, f);
      assert rs[i := r][..n] == rs[..n][i := r];
    }
  }

  lemma TotalSnoc(rs: seq<Request>, r: Request, f: Request -> nat)
    ensures Total(rs + [r], f) == Total(rs, f) + f(r)
  {
    assert (rs + [r])[..|rs|] == rs;
  }

  lemma {:induction false} TotalMember(rs: seq<Request>, i: nat, f: Request -> nat)
    requires i < |rs|
    ensures f(rs[i]) <= Total(rs, f)
    decreases |rs|
  {
    if i < |rs| - 1 {
      TotalMember(rs[..|rs| - 1], i, f);
    }
  }

  /** Bytes of the body that count against the shared buffer. */
  function Held(r: Request): nat {
    if r.phase.Reading? || r.phase.ReadDone? || r.phase.Upstream? || r.phase.Resolved? || r.phase.Failed? then |r.body| else 0
  }

  function InFlight(r: Request): nat { if r.phase.Gone? then 0 else 1 }

  /** Unfinished forwards. */
  function Unfinished(r: Request): nat { if r.phase.Gone? || r.phase.Leaving? then 0 else 1 }

  function UnfinishedIn(c: nat): Request -> nat { (r: Request) => if r.cell == Some(c) then Unfinished(r) else 0 }

  // ---- what the evidence is about

  predicate IsGood(a: Answer, expected: Model) {
    a.success && a.models != [] && forall m | m in a.models :: m == expected
  }

  predicate Distinct(ids: seq<nat>) { forall i, j | 0 <= i < j < |ids| :: ids[i] != ids[j] }

  function Flatten(rs: seq<Request>, ids: seq<nat>): seq<Model>
    requires forall k | 0 <= k < |ids| :: ids[k] < |rs| && rs[ids[k]].answer.Some?
  {
    if ids == [] then [] else Flatten(rs, ids[..|ids| - 1]) + rs[ids[|ids| - 1]].answer.value.models
  }

  /** The ids of the admitted requests of a cell, in order. */
  predicate AdmittedOk(rs: seq<Request>, c: nat, cell: Cell, ids: seq<nat>, expected: Model) {
    && Distinct(ids)
    && (forall r | 0 <= r < |rs| :: r in ids <==> rs[r].cell == Some(c) && rs[r].admitted)
    && (forall k | 0 <= k < |ids| :: ids[k] < |rs|)
    && cell.requestCount == |ids| == |cell.requestModels| == |cell.requestHashes|
    && (forall k | 0 <= k < |ids| ::
          && rs[ids[k]].model == Some(cell.requestModels[k]) && cell.requestModels[k] == expected
          && cell.requestHashes[k] == rs[ids[k]].body)
  }

  /** The ids of the requests of a cell whose response was good, in order. */
  predicate CompletedOk(rs: seq<Request>, c: nat, cell: Cell, ids: seq<nat>, expected: Model) {
    && Distinct(ids)
    && (forall r | 0 <= r < |rs| ::
          r in ids <==> rs[r].cell == Some(c) && rs[r].answer.Some? && IsGood(rs[r].answer.value, expected))
    && (forall k | 0 <= k < |ids| :: ids[k] < |rs| && rs[ids[k]].answer.Some?)
    && cell.completed == |ids|
    && cell.responseModels == Flatten(rs, ids)
  }

  function Members(ids: seq<nat>): set<nat> { set x | x in ids }

  lemma {:induction false} DistinctSize(ids: seq<nat>)
    requires Distinct(ids)
    ensures |Members(ids)| == |ids|
  {
    if ids != [] {
      var rest, last := ids[..|ids| - 1], ids[|ids| - 1];
      DistinctSize(rest);
      assert Members(ids) == Members(rest) + {last};
      assert last !in rest;
    }
  }

  /** As many good responses as admitted requests means one for each of them. */
  lemma EveryRequestAnswered(admitted: seq<nat>, completed: seq<nat>)
    requires Distinct(admitted) && Distinct(completed) && |admitted| == |completed|
    requires forall r | r in completed :: r in admitted
    ensures forall r | r in admitted :: r in completed
  {
    var a, c := Members(admitted), Members(completed);
    DistinctSize(admitted);
    DistinctSize(completed);
    assert c <= a;
    assert |a - c| == |a| - |c|;
    assert a - c == {};
    forall r | r in admitted ensures r in completed {
      assert r in a;
      assert r in c;
    }
  }

  // ---- how single steps change the books

  predicate Counts(rs: seq<Request>, cells: seq<Cell>, buffered: int, inFlight: int) {
    && buffered == Total(rs, Held)
    && inFlight == Total(rs, InFlight)
    && forall c | 0 <= c < |cells| :: cells[c].pending == Total(rs, UnfinishedIn(c))
  }

  /** Only the pending counter of the request's own cell follows its progress. */
  predicate PendingFollows(cells: seq<Cell>, cells': seq<Cell>, r: Request, r': Request) {
    && |cells'| == |cells|
    && forall c | 0 <= c < |cells| ::
         cells'[c].pending == cells[c].pending
                              + if r.cell == Some(c) then Unfinished(r') - Unfinished(r) else 0
  }

  lemma CountsStep(rs: seq<Request>, cells: seq<Cell>, cells': seq<Cell>, buffered: int, inFlight: int, i: nat, r: Request)
    requires i < |rs| && Counts(rs, cells, buffered, inFlight) && r.cell == rs[i].cell
    requires PendingFollows(cells, cells', rs[i], r)
    ensures Counts(rs[i := r], cells', buffered - Held(rs[i]) + Held(r), inFlight - InFlight(rs[i]) + InFlight(r))
  {
    TotalUpdate(rs, i, r, Held);
    TotalUpdate(rs, i, r, InFlight);
    forall c | 0 <= c < |cells'| ensures cells'[c].pending == Total(rs[i := r], UnfinishedIn(c)) {
      TotalUpdate(rs, i, r, UnfinishedIn(c));
    }
  }

  lemma CountsArrival(rs: seq<Request>, cells: seq<Cell>, cells': seq<Cell>, buffered: int, inFlight: int, r: Request)
    requires Counts(rs, cells, buffered, inFlight) && Held(r) == 0 && !r.phase.Gone?
    requires PendingFollows(cells, cells', r.(phase := Gone), r)
    ensures Counts(rs + [r], cells', buffered, inFlight + 1)
  {
    TotalSnoc(rs, r, Held);
    TotalSnoc(rs, r, InFlight);
    forall c | 0 <= c < |cells'| ensures cells'[c].pending == Total(rs + [r], UnfinishedIn(c)) {
      TotalSnoc(rs, r, UnfinishedIn(c));
    }
  }

  predicate SameEvidence(a: Cell, b: Cell) {
    && a.requestCount == b.requestCount && a.requestModels == b.requestModels && a.requestHashes == b.requestHashes
    && a.completed == b.completed && a.responseModels == b.responseModels
  }

  /** A step of a request that neither admits nor answers it. */
  predicate SameStanding(r: Request, r': Request) {
    r'.cell == r.cell && r'.admitted == r.admitted && r'.answer == r.answer && (r.admitted ==> r'.body == r.body && r'.model == r.model)
  }

  ghost predicate Ledger(rs: seq<Request>, cells: seq<Cell>, admitted: seq<seq<nat>>, completed: seq<seq<nat>>, expected: Model) {
    && |admitted| == |completed| == |cells|
    && forall c | 0 <= c < |cells| ::
         AdmittedOk(rs, c, cells[c], admitted[c], expected) && CompletedOk(rs, c, cells[c], completed[c], expected)
  }

  lemma {:induction false} FlattenFrame(rs: seq<Request>, rs': seq<Request>, ids: seq<nat>)
    requires forall k | 0 <= k < |ids| :: ids[k] < |rs| && rs[ids[k]].answer.Some?
    requires forall k | 0 <= k < |ids| :: ids[k] < |rs'| && rs'[ids[k]].answer == rs[ids[k]].answer
    ensures Flatten(rs', ids) == Flatten(rs, ids)
  {
    if ids != [] {
      FlattenFrame(rs, rs', ids[..|ids| - 1]);
    }
  }

  lemma CellFrame(rs: seq<Request>, i: nat, r: Request, c: nat, cell: Cell, cell': Cell, a: seq<nat>, k: seq<nat>, expected: Model)
    requires i < |rs| && SameStanding(rs[i], r) && SameEvidence(cell, cell')
    requires AdmittedOk(rs, c, cell, a, expected) && CompletedOk(rs, c, cell, k, expected)
    ensures AdmittedOk(rs[i := r], c, cell', a, expected) && CompletedOk(rs[i := r], c, cell', k, expected)
  {
    FlattenFrame(rs, rs[i := r], k);
  }

  lemma LedgerStep(rs: seq<Request>, i: nat, r: Request, cells: seq<Cell>, cells': seq<Cell>,
                   admitted: seq<seq<nat>>, completed: seq<seq<nat>>, expected: Model)
    requires i < |rs| && SameStanding(rs[i], r) && Ledger(rs, cells, admitted, completed, expected)
    requires |cells'| == |cells| && forall c | 0 <= c < |cells| :: SameEvidence(cells[c], cells'[c])
    ensures Ledger(rs[i := r], cells', admitted, completed, expected)
  {
    hide AdmittedOk, CompletedOk, SameEvidence, SameStanding;
    forall c | 0 <= c < |cells'|
      ensures AdmittedOk(rs[i := r], c, cells'[c], admitted[c], expected)
              && CompletedOk(rs[i := r], c, cells'[c], completed[c], expected)
    {
      CellFrame(rs, i, r, c, cells[c], cells'[c], admitted[c], completed[c], expected);
    }
  }

  lemma CellArrival(rs: seq<Request>, r: Request, c: nat, cell: Cell, cell': Cell, a: seq<nat>, k: seq<nat>, expected: Model)
    requires !r.admitted && r.answer.None? && SameEvidence(cell, cell')
    requires AdmittedOk(rs, c, cell, a, expected) && CompletedOk(rs, c, cell, k, expected)
    ensures AdmittedOk(rs + [r], c, cell', a, expected) && CompletedOk(rs + [r], c, cell', k, expected)
  {
    FlattenFrame(rs, rs + [r], k);
  }

  lemma LedgerArrival(rs: seq<Request>, r: Request, cells: seq<Cell>, cells': seq<Cell>,
                      admitted: seq<seq<nat>>, completed: seq<seq<nat>>, expected: Model)
    requires !r.admitted && r.answer.None? && Ledger(rs, cells, admitted, completed, expected)
    requires |cells'| == |cells| && forall c | 0 <= c < |cells| :: SameEvidence(cells[c], cells'[c])
    ensures Ledger(rs + [r], cells', admitted, completed, expected)
  {
    hide AdmittedOk, CompletedOk, SameEvidence;
    forall c | 0 <= c < |cells'|
      ensures AdmittedOk(rs + [r], c, cells'[c], admitted[c], expected)
              && CompletedOk(rs + [r], c, cells'[c], completed[c], expected)
    {
      CellArrival(rs, r, c, cells[c], cells'[c], admitted[c], completed[c], expected);
    }
  }

  /** A request of cell `o` is admitted: its id, model and hash are appended. */
  lemma AdmitOwn(rs: seq<Request>, i: nat, c: nat, cell: Cell, cell': Cell, a: seq<nat>, model: Model, expected: Model)
    requires i < |rs| && rs[i].cell == Some(c) && !rs[i].admitted
    requires AdmittedOk(rs, c, cell, a, expected)
    requires cell'.requestCount == cell.requestCount + 1
    requires model == expected && cell'.requestModels == cell.requestModels + [model]
    requires cell'.requestHashes == cell.requestHashes + [rs[i].body]
    ensures AdmittedOk(rs[i := rs[i].(phase := Upstream, model := Some(model), admitted := true)], c, cell', a + [i], expected)
  {
    var r := rs[i].(phase := Upstream, model := Some(model), admitted := true);
    var rs' := rs[i := r];
    assert i !in a;
    forall k | 0 <= k < |a| + 1
      ensures rs'[(a + [i])[k]].model == Some(cell'.requestModels[k]) && cell'.requestModels[k] == expected
              && cell'.requestHashes[k] == rs'[(a + [i])[k]].body
    {
      if k < |a| {
        assert a[k] in a;
      }
    }
  }

  lemma AdmitOthers(rs: seq<Request>, i: nat, c: nat, cell: Cell, a: seq<nat>, model: Model, expected: Model)
    requires i < |rs| && rs[i].cell != Some(c) && AdmittedOk(rs, c, cell, a, expected)
    ensures AdmittedOk(rs[i := rs[i].(phase := Upstream, model := Some(model), admitted := true)], c, cell, a, expected)
  {
  }

  lemma AdmitCompleted(rs: seq<Request>, i: nat, c: nat, cell: Cell, cell': Cell, k: seq<nat>, model: Model, expected: Model)
    requires i < |rs| && CompletedOk(rs, c, cell, k, expected)
    requires cell'.completed == cell.completed && cell'.responseModels == cell.responseModels
    ensures CompletedOk(rs[i := rs[i].(phase := Upstream, model := Some(model), admitted := true)], c, cell', k, expected)
  {
    FlattenFrame(rs, rs[i := rs[i].(phase := Upstream, model := Some(model), admitted := true)], k);
  }

  lemma LedgerAdmit(rs: seq<Request>, i: nat, o: nat, cells: seq<Cell>, cell': Cell,
                    admitted: seq<seq<nat>>, completed: seq<seq<nat>>, model: Model, expected: Model)
    requires i < |rs| && o < |cells| && rs[i].cell == Some(o) && !rs[i].admitted
    requires Ledger(rs, cells, admitted, completed, expected)
    requires cell'.requestCount == cells[o].requestCount + 1
    requires model == expected && cell'.requestModels == cells[o].requestModels + [model]
    requires cell'.requestHashes == cells[o].requestHashes + [rs[i].body]
    requires cell'.completed == cells[o].completed && cell'.responseModels == cells[o].responseModels
    ensures |admitted| == |cells|
    ensures Ledger(rs[i := rs[i].(phase := Upstream, model := Some(model), admitted := true)], cells[o := cell'],
                   admitted[o := admitted[o] + [i]], completed, expected)
  {
    hide AdmittedOk, CompletedOk;
    var rs', cells', admitted' := rs[i := rs[i].(phase := Upstream, model := Some(model), admitted := true)], cells[o := cell'], admitted[o := admitted[o] + [i]];
    forall c | 0 <= c < |cells'|
      ensures AdmittedOk(rs', c, cells'[c], admitted'[c], expected) && CompletedOk(rs', c, cells'[c], completed[c], expected)
    {
      if c == o {
        AdmitOwn(rs, i, c, cells[c], cell', admitted[c], model, expected);
      } else {
        AdmitOthers(rs, i, c, cells[c], admitted[c], model, expected);
      }
      AdmitCompleted(rs, i, c, cells[c], cells'[c], completed[c], model, expected);
    }
  }

  lemma AnswerAdmitted(rs: seq<Request>, i: nat, p: Phase, ans: Answer, c: nat, cell: Cell, cell': Cell, a: seq<nat>, expected: Model)
    requires i < |rs| && AdmittedOk(rs, c, cell, a, expected)
    requires cell'.requestCount == cell.requestCount && cell'.requestModels == cell.requestModels
    requires cell'.requestHashes == cell.requestHashes
    ensures AdmittedOk(rs[i := rs[i].(phase := p, answer := Some(ans))], c, cell', a, expected)
  {
  }

  lemma AnswerGood(rs: seq<Request>, i: nat, p: Phase, ans: Answer, c: nat, cell: Cell, cell': Cell, k: seq<nat>, expected: Model)
    requires i < |rs| && rs[i].cell == Some(c) && rs[i].answer.None? && IsGood(ans, expected)
    requires CompletedOk(rs, c, cell, k, expected)
    requires cell'.completed == cell.completed + 1 && cell'.responseModels == cell.responseModels + ans.models
    ensures CompletedOk(rs[i := rs[i].(phase := p, answer := Some(ans))], c, cell', k + [i], expected)
  {
    hide IsGood, Flatten;
    var rs' := rs[i := rs[i].(phase := p, answer := Some(ans))];
    assert i !in k;
    assert forall j | 0 <= j < |k| :: k[j] in k;
    FlattenFrame(rs, rs', k);
    FlattenSnoc(rs', k, i);
  }

  lemma FlattenSnoc(rs: seq<Request>, ids: seq<nat>, i: nat)
    requires forall k | 0 <= k < |ids| :: ids[k] < |rs| && rs[ids[k]].answer.Some?
    requires i < |rs| && rs[i].answer.Some?
    ensures Flatten(rs, ids + [i]) == Flatten(rs, ids) + rs[i].answer.value.models
  {
    assert (ids + [i])[..|ids|] == ids;
  }

  lemma AnswerElse(rs: seq<Request>, i: nat, p: Phase, ans: Answer, c: nat, cell: Cell, cell': Cell, k: seq<nat>, expected: Model)
    requires i < |rs| && rs[i].answer.None? && (rs[i].cell != Some(c) || !IsGood(ans, expected))
    requires CompletedOk(rs, c, cell, k, expected)
    requires cell'.completed == cell.completed && cell'.responseModels == cell.responseModels
    ensures CompletedOk(rs[i := rs[i].(phase := p, answer := Some(ans))], c, cell', k, expected)
  {
    hide IsGood;
    var rs' := rs[i := rs[i].(phase := p, answer := Some(ans))];
    assert i !in k;
    assert forall j | 0 <= j < |k| :: k[j] in k;
    FlattenFrame(rs, rs', k);
  }

  lemma LedgerAnswer(rs: seq<Request>, i: nat, p: Phase, ans: Answer, o: nat, cells: seq<Cell>, cell': Cell,
                     admitted: seq<seq<nat>>, completed: seq<seq<nat>>, expected: Model)
    requires i < |rs| && o < |cells| && rs[i].cell == Some(o) && rs[i].answer.None?
    requires Ledger(rs, cells, admitted, completed, expected)
    requires cell'.requestCount == cells[o].requestCount && cell'.requestModels == cells[o].requestModels
    requires cell'.requestHashes == cells[o].requestHashes
    requires cell'.completed == cells[o].completed + (if IsGood(ans, expected) then 1 else 0)
    requires cell'.responseModels == cells[o].responseModels + if IsGood(ans, expected) then ans.models else []
    ensures |completed| == |cells|
    ensures Ledger(rs[i := rs[i].(phase := p, answer := Some(ans))], cells[o := cell'], admitted,
                   completed[o := completed[o] + if IsGood(ans, expected) then [i] else []], expected)
  {
    hide AdmittedOk, CompletedOk, IsGood;
    var rs', cells' := rs[i := rs[i].(phase := p, answer := Some(ans))], cells[o := cell'];
    var completed' := completed[o := completed[o] + if IsGood(ans, expected) then [i] else []];
    assert completed[o] + [] == completed[o];
    forall c | 0 <= c < |cells'|
      ensures AdmittedOk(rs', c, cells'[c], admitted[c], expected) && CompletedOk(rs', c, cells'[c], completed'[c], expected)
    {
      AnswerAdmitted(rs, i, p, ans, c, cells[c], cells'[c], admitted[c], expected);
      if c == o && IsGood(ans, expected) {
        AnswerGood(rs, i, p, ans, c, cells[c], cells'[c], completed[c], expected);
      } else {
        AnswerElse(rs, i, p, ans, c, cells[c], cells'[c], completed[c], expected);
      }
    }
  }

  // ---- the proxy

  /** What the phase of a request says about it. */
  predicate RequestOk(r: Request, cells: nat) {
    && (r.cell.Some? ==> r.cell.value < cells)
    && (Unfinished(r) == 1 ==> r.cell.Some?)
    && Held(r) <= MAX_REQUEST_BYTES
    && (r.phase.Reading? || r.phase.ReadFailed? || r.phase.ReadDone? ==> !r.admitted)
    && (r.phase.Upstream? ==> r.answer.None?)
    && (r.phase.Upstream? || r.phase.Resolved? || r.phase.Failed? ==> r.admitted == r.completion)
    && (r.answer.Some? ==> r.admitted)
    && (r.admitted ==> r.completion && r.cell.Some?)
  }

  predicate RequestsOk(rs: seq<Request>, cells: nat) { forall r | 0 <= r < |rs| :: RequestOk(rs[r], cells) }

  /** The model of an admitted request is the one its body names. */
  predicate BodiesParsed(rs: seq<Request>, parse: Body -> Option<Option<Model>>) {
    forall r | 0 <= r < |rs| && rs[r].admitted :: parse(rs[r].body) == Some(rs[r].model)
  }

  /** A completion request that was turned away is counted as rejected in its cell. */
  predicate RejectionsNoted(rs: seq<Request>, cells: seq<Cell>) {
    forall r | 0 <= r < |rs| && rs[r].cell.Some? && rs[r].completion && !rs[r].admitted && Unfinished(rs[r]) == 0 ::
      rs[r].cell.value < |cells| && cells[rs[r].cell.value].rejected > 0
  }

  /** A certified cell has ended with nothing pending, and its counters are the evidence. */
  predicate CertifiedOk(rs: seq<Request>, cells: seq<Cell>, active: Option<nat>, certified: map<nat, Evidence>) {
    && (forall c | c in certified ::
          && c < |cells| && active != Some(c) && cells[c].pending == 0 && cells[c].completed == cells[c].requestCount
          && certified[c] == EvidenceOf(cells[c]))
    && (forall r | 0 <= r < |rs| && rs[r].cell.Some? && rs[r].cell.value in certified && rs[r].completion :: rs[r].admitted)
  }

  function EvidenceOf(cell: Cell): Evidence {
    Evidence(cell.requestCount, cell.requestModels, cell.responseModels, cell.requestHashes)
  }

  lemma CertifiedStep(rs: seq<Request>, i: nat, r: Request, cells: seq<Cell>, cells': seq<Cell>, buffered: int, inFlight: int,
                      active: Option<nat>, certified: map<nat, Evidence>)
    requires i < |rs| && Counts(rs, cells, buffered, inFlight) && CertifiedOk(rs, cells, active, certified)
    requires r.cell == rs[i].cell && r.completion == rs[i].completion && (rs[i].admitted ==> r.admitted)
    requires PendingFollows(cells, cells', rs[i], r) && Unfinished(r) <= Unfinished(rs[i])
    requires forall c | 0 <= c < |cells| && c in certified && (Unfinished(rs[i]) == 0 || rs[i].cell != Some(c)) ::
               SameEvidence(cells[c], cells'[c])
    ensures CertifiedOk(rs[i := r], cells', active, certified)
  {
    forall c | c in certified
      ensures c < |cells'| && active != Some(c) && cells'[c].pending == 0 && cells'[c].completed == cells'[c].requestCount
              && certified[c] == EvidenceOf(cells'[c])
    {
      TotalMember(rs, i, UnfinishedIn(c));
    }
  }

  /** `reject`: count it in the cell, if there is one. */
  function Rejected(cells: seq<Cell>, cell: Option<nat>): seq<Cell>
    requires cell.Some? ==> cell.value < |cells|
  {
    if cell.Some? then cells[cell.value := cells[cell.value].(rejected := cells[cell.value].rejected + 1)] else cells
  }

  /** `forward` counts itself as pending. */
  function Started(cells: seq<Cell>, c: nat): seq<Cell>
    requires c < |cells|
  {
    cells[c := cells[c].(pending := cells[c].pending + 1)]
  }

  /** The finally block of `forward`. */
  function Released(cells: seq<Cell>, c: nat): seq<Cell>
    requires c < |cells|
  {
    cells[c := cells[c].(pending := cells[c].pending - 1)]
  }

  /** The parts of an incoming request that `forward` looks at before the body. */
  datatype Incoming = Incoming(targetOk: bool, postCompletions: bool, getModels: bool, declaredLength: Option<nat>)

  /** What can happen next: a call from the harness, a new request, or the continuation of
      request `i` with whatever the network makes of it. */
  datatype Event =
    | Begins(name: string)
    | Ends(name: string)
    | Closes
    | Arrives(incoming: Incoming)
    | EndsLate(i: nat, status: int, models: seq<Model>)
    | Continues(i: nat, bytes: string, stop: bool, broken: bool, status: int, models: seq<Model>)

  class Proxy {
    const expectedModel: Model
    const parse: Body -> Option<Option<Model>>   // the model a body names, if it is JSON at all
    var active: Option<nat>
    var closed: bool
    var bufferedRequestBytes: int
    var inFlight: int
    var cells: seq<Cell>
    var requests: seq<Request>
    ghost var admitted: seq<seq<nat>>    // per cell, the requests admitted in order
    ghost var completed: seq<seq<nat>>   // per cell, the requests answered well in order
    ghost var certified: map<nat, Evidence>   // the evidence returned for ended cells

    ghost predicate Valid()
      reads this
    {
      && Counts(requests, cells, bufferedRequestBytes, inFlight)
      && bufferedRequestBytes <= MAX_BUFFERED_REQUEST_BYTES && inFlight <= MAX_CONCURRENT_REQUESTS
      && (active.Some? ==> active.value < |cells|)
      && RequestsOk(requests, |cells|)
      && RejectionsNoted(requests, cells)
      && CertifiedOk(requests, cells, active, certified)
      && Ledger(requests, cells, admitted, completed, expectedModel)
      && BodiesParsed(requests, parse)
    }

    /** Only the cell of the request was touched, and no other request. */
    twostate predicate OnlyOwn(i: nat, cell: Option<nat>)
      reads this
    {
      && |cells| == |old(cells)| && |requests| >= |old(requests)|
      && (forall c | 0 <= c < |cells| && Some(c) != cell :: cells[c] == old(cells)[c])
      && (forall r | 0 <= r < |old(requests)| && r != i :: requests[r] == old(requests)[r])
      && active == old(active) && closed == old(closed) && certified == old(certified)
    }

    constructor (expectedModel: Model, parse: Body -> Option<Option<Model>>)
      ensures Valid() && active.None? && !closed && cells == [] && requests == [] && bufferedRequestBytes == 0
      ensures this.expectedModel == expectedModel && this.parse == parse
    {
      hide Counts, AdmittedOk, CompletedOk, Ledger, RequestsOk, RejectionsNoted, CertifiedOk, BodiesParsed;
      EmptyBooks(expectedModel, parse);
      this.expectedModel, this.parse := expectedModel, parse;
      active, closed, bufferedRequestBytes, inFlight := None, false, 0, 0;
      cells, requests, admitted, completed, certified := [], [], [], [], map[];
    }

    method BeginCell(name: string, timeoutOk: bool) returns (ok: bool)
      requires Valid()
      modifies this
      ensures Valid() && unchanged(`requests, `bufferedRequestBytes, `inFlight, `closed, `certified)
      ensures ok == (!closed && old(active).None? && timeoutOk)
      ensures ok ==> active == Some(|old(cells)|)
                     && cells == old(cells) + [Cell(name, 0, 0, 0, 0, 0, 0, 0, [], [], [])]
      ensures !ok ==> unchanged(this)
    {
      if closed || active.Some? || !timeoutOk {
        return false;
      }
      NewCellBooks(requests, cells, bufferedRequestBytes, inFlight, admitted, completed, expectedModel, name);
      active := Some(|cells|);
      cells := cells + [Cell(name, 0, 0, 0, 0, 0, 0, 0, [], [], [])];
      admitted, completed := admitted + [[]], completed + [[]];
      ok := true;
    }

    /** If evidence is returned for a cell, every completion request admitted in it carried the
        expected model and was answered once, successfully and by the expected model only; the
        hashes and models of the evidence are those of the admitted requests, one each. */
    method EndCell(name: string) returns (evidence: Option<Evidence>)
      requires Valid()
      modifies `active, `certified
      ensures Valid()
      ensures certified == if evidence.Some? && old(active).Some? then old(certified)[old(active).value := evidence.value] else old(certified)
      ensures old(active).Some? && cells[old(active).value].name == name ==> active.None?
      ensures old(active).None? || cells[old(active).value].name != name ==> unchanged(this) && evidence.None?
      ensures old(active).Some? && cells[old(active).value].name == name ==>
                (evidence.Some? <==> Complete(cells[old(active).value]))
      ensures evidence.Some? ==> old(active).Some?
      ensures evidence.Some? ==>
                EvidenceSound(old(active).value, evidence.value, admitted[old(active).value], completed[old(active).value])
    {
      hide Counts, AdmittedOk, CompletedOk;
      if active.None? || cells[active.value].name != name {
        return None;
      }
      var c := active.value;
      var cell := cells[c];
      active := None;
      if cell.pending != 0 || cell.rejected != 0 || cell.requestCount == 0 {
        return None;
      }
      if cell.completed != cell.requestCount || |cell.responseModels| == 0 || exists m :: m in cell.responseModels && m != expectedModel {
        return None;
      }
      evidence := Some(Evidence(cell.requestCount, cell.requestModels, cell.responseModels, cell.requestHashes));
      forall r | 0 <= r < |requests| && requests[r].cell == Some(c) && requests[r].completion ensures requests[r].admitted {
        AllFinished(r, c);
      }
      certified := certified[c := evidence.value];
      CertifiedEvidenceStands(c);
    }

    /** What `endCell` checks. */
    predicate Complete(cell: Cell) {
      && cell.pending == 0 && cell.rejected == 0 && cell.requestCount > 0
      && cell.completed == cell.requestCount && |cell.responseModels| > 0
      && forall m | m in cell.responseModels :: m == expectedModel
    }

    ghost predicate EvidenceSound(c: nat, e: Evidence, admittedIds: seq<nat>, completedIds: seq<nat>)
      reads this
    {
      // the admitted requests of the cell, each once
      && Distinct(admittedIds)
      && (forall r | 0 <= r < |requests| :: r in admittedIds <==> requests[r].cell == Some(c) && requests[r].admitted)
      && (forall k | 0 <= k < |admittedIds| :: admittedIds[k] < |requests|)
      // counts, models and hashes agree with them one to one
      && e.requestCount == |admittedIds| == |e.requestModels| == |e.requestHashes|
      && (forall k | 0 <= k < |admittedIds| ::
            && requests[admittedIds[k]].model == Some(e.requestModels[k]) && e.requestModels[k] == expectedModel
            && e.requestHashes[k] == requests[admittedIds[k]].body
            && parse(requests[admittedIds[k]].body) == Some(Some(expectedModel)))
      // and each was answered, once and well
      && (forall r | r in admittedIds :: requests[r].answer.Some? && IsGood(requests[r].answer.value, expectedModel))
      // no completion request of the cell is missing among them
      && (forall r | 0 <= r < |requests| && requests[r].cell == Some(c) && requests[r].completion :: r in admittedIds)
      && Distinct(completedIds) && Members(completedIds) == Members(admittedIds)
      && (forall k | 0 <= k < |completedIds| :: completedIds[k] < |requests| && requests[completedIds[k]].answer.Some?)
      && e.responseModels == Flatten(requests, completedIds)
    }

    /** Evidence once returned stays true of the requests, whatever happens later. */
    lemma CertifiedEvidenceStands(c: nat)
      requires Valid() && c in certified
      ensures c < |cells| == |admitted| == |completed|
      ensures EvidenceSound(c, certified[c], admitted[c], completed[c])
    {
      hide Counts, IsGood;
      var a, k := admitted[c], completed[c];
      assert AdmittedOk(requests, c, cells[c], a, expectedModel) && CompletedOk(requests, c, cells[c], k, expectedModel);
      forall r | r in k ensures r in a {
        assert RequestOk(requests[r], |cells|);
      }
      EveryRequestAnswered(a, k);
      assert Members(k) == Members(a);
    }

    lemma AllFinished(r: nat, c: nat)
      requires Counts(requests, cells, bufferedRequestBytes, inFlight)
      requires c < |cells| && cells[c].pending == 0 && r < |requests| && requests[r].cell == Some(c)
      ensures Unfinished(requests[r]) == 0
    {
      TotalMember(requests, r, UnfinishedIn(c));
    }

    /** Proof step shared by the stretches of code that neither admit nor answer a request. */
    ghost method Book(i: nat, r: Request, cells': seq<Cell>)
      requires Valid() && i < |requests| && SameStanding(requests[i], r) && r.completion == requests[i].completion
      requires PendingFollows(cells, cells', requests[i], r) && RequestOk(r, |cells|)
      requires forall c | 0 <= c < |cells| :: SameEvidence(cells[c], cells'[c]) && cells[c].rejected <= cells'[c].rejected
      requires r.cell.Some? && r.completion && !r.admitted && Unfinished(r) == 0 ==> cells'[r.cell.value].rejected > 0
      requires Unfinished(r) <= Unfinished(requests[i])
      ensures CertifiedOk(requests[i := r], cells', active, certified)
      ensures Counts(requests[i := r], cells', bufferedRequestBytes - Held(requests[i]) + Held(r),
                     inFlight - InFlight(requests[i]) + InFlight(r))
      ensures Ledger(requests[i := r], cells', admitted, completed, expectedModel)
      ensures RejectionsNoted(requests[i := r], cells')
      ensures RequestsOk(requests[i := r], |cells'|)
      ensures BodiesParsed(requests[i := r], parse)
    {
      hide Counts, AdmittedOk, CompletedOk, Ledger;
      CountsStep(requests, cells, cells', bufferedRequestBytes, inFlight, i, r);
      LedgerStep(requests, i, r, cells, cells', admitted, completed, expectedModel);
      CertifiedStep(requests, i, r, cells, cells', bufferedRequestBytes, inFlight, active, certified);
    }

    /** Add a request that `forward` has just started on, with what that did to its cell. */
    method Arrive(r: Request, cells': seq<Cell>)
      requires Valid() && inFlight < MAX_CONCURRENT_REQUESTS
      requires r.cell == active && r.body == "" && !r.admitted && r.answer.None? && (r.phase.Reading? || r.phase == Leaving(false))
      requires r.phase.Reading? ==> active.Some?
      requires PendingFollows(cells, cells', r.(phase := Gone), r)
      requires forall c | 0 <= c < |cells| :: SameEvidence(cells[c], cells'[c]) && cells[c].rejected <= cells'[c].rejected
      requires r.cell.Some? && r.completion && r.phase.Leaving? ==> cells'[r.cell.value].rejected > 0
      requires forall c | 0 <= c < |cells| && active != Some(c) :: cells'[c] == cells[c]
      modifies `requests, `cells, `inFlight
      ensures Valid() && requests == old(requests) + [r] && cells == cells' && inFlight == old(inFlight) + 1
    {
      hide Counts, AdmittedOk, CompletedOk, Ledger;
      CountsArrival(requests, cells, cells', bufferedRequestBytes, inFlight, r);
      LedgerArrival(requests, r, cells, cells', admitted, completed, expectedModel);
      cells := cells';
      requests := requests + [r];
      inFlight := inFlight + 1;
    }

    method RejectNow()
      requires Valid()
      modifies `cells
      ensures Valid() && cells == Rejected(old(cells), active)
    {
      hide Counts, AdmittedOk, CompletedOk, Ledger;
      RejectionBooks(requests, cells, active, bufferedRequestBytes, inFlight, admitted, completed, expectedModel);
      cells := Rejected(cells, active);
    }

    /** `forward` rejects the request before reading anything of it. */
    method Refuse(incoming: Incoming)
      requires Valid() && inFlight < MAX_CONCURRENT_REQUESTS
      modifies `requests, `cells, `inFlight
      ensures Valid() && inFlight == old(inFlight) + 1 && cells == Rejected(old(cells), active)
      ensures requests == old(requests) + [Request(active, incoming.postCompletions, Leaving(false), "", None, false, None)]
    {
      hide Counts, AdmittedOk, CompletedOk, Ledger, RequestsOk, RejectionsNoted, CertifiedOk, BodiesParsed;
      Arrive(Request(active, incoming.postCompletions, Leaving(false), "", None, false, None), Rejected(cells, active));
    }

    /** `handle` and the part of `forward` before its first await. */
    method Handle(incoming: Incoming) returns (id: Option<nat>)
      requires Valid()
      modifies this
      ensures Valid() && OnlyOwn(|old(requests)|, old(active)) && unchanged(`bufferedRequestBytes)
      ensures id.None? <==> old(inFlight) >= MAX_CONCURRENT_REQUESTS
      ensures id.None? ==> requests == old(requests) && inFlight == old(inFlight) && cells == Rejected(old(cells), active)
      ensures id.Some? ==> id.value == |old(requests)| && inFlight == old(inFlight) + 1
      ensures id.Some? ==> requests == old(requests) + [Request(active, incoming.postCompletions,
                             if old(MayRead(incoming)) then Reading else Leaving(false), "", None, false, None)]
      ensures id.Some? ==> cells == if old(MayRead(incoming)) then Started(old(cells), active.value) else Rejected(old(cells), active)
    {
      hide Counts, AdmittedOk, CompletedOk, Ledger, RequestsOk, RejectionsNoted, CertifiedOk, BodiesParsed;
      if inFlight >= MAX_CONCURRENT_REQUESTS {
        RejectNow();
        return None;
      }
      id := Some(|requests|);
      if active.None? || closed {
        Refuse(incoming);
        return;
      }
      var c := active.value;
      var started := Started(cells, c);
      if !incoming.targetOk || (!incoming.postCompletions && !incoming.getModels)
         || (incoming.declaredLength.Some? && incoming.declaredLength.value > MAX_REQUEST_BYTES) {
        assert Released(Rejected(started, active), c) == Rejected(cells, active);
        Refuse(incoming);
        return;
      }
      Arrive(Request(active, incoming.postCompletions, Reading, "", None, false, None), started);
    }

    /** The request gets as far as having its body read. */
    predicate MayRead(incoming: Incoming)
      reads this
    {
      && active.Some? && !closed && incoming.targetOk && (incoming.postCompletions || incoming.getModels)
      && (incoming.declaredLength.Some? ==> incoming.declaredLength.value <= MAX_REQUEST_BYTES)
    }

    /** One chunk of the body. */
    method Chunk(i: nat, bytes: string)
      requires Valid() && i < |requests| && requests[i].phase.Reading?
      modifies this
      ensures Valid() && OnlyOwn(i, None) && unchanged(`inFlight, `cells)
      ensures var r, n := old(requests[i]), |bytes|;
              if |r.body| + n > MAX_REQUEST_BYTES || old(bufferedRequestBytes) + n > MAX_BUFFERED_REQUEST_BYTES
              then requests[i] == r.(phase := ReadFailed, body := "") && bufferedRequestBytes == old(bufferedRequestBytes) - |r.body|
              else requests[i] == r.(body := r.body + bytes) && bufferedRequestBytes == old(bufferedRequestBytes) + n
    {
      hide Counts, AdmittedOk, CompletedOk, Ledger;
      var r := requests[i];
      if |r.body| + |bytes| > MAX_REQUEST_BYTES || bufferedRequestBytes + |bytes| > MAX_BUFFERED_REQUEST_BYTES {
        ReadAborts(i);
        return;
      }
      var r' := r.(body := r.body + bytes);
      Book(i, r', cells);
      bufferedRequestBytes := bufferedRequestBytes + |bytes|;
      requests := requests[i := r'];
    }

    /** The body was refused, or the client went away or timed out. */
    method ReadAborts(i: nat)
      requires Valid() && i < |requests| && requests[i].phase.Reading?
      modifies this
      ensures Valid() && OnlyOwn(i, None) && unchanged(`inFlight, `cells)
      ensures requests[i] == old(requests[i]).(phase := ReadFailed, body := "")
      ensures bufferedRequestBytes == old(bufferedRequestBytes) - |old(requests[i]).body|
    {
      hide Counts, AdmittedOk, CompletedOk, Ledger;
      var r := requests[i];
      Book(i, r.(phase := ReadFailed, body := ""), cells);
      bufferedRequestBytes := bufferedRequestBytes - |r.body|;
      requests := requests[i := r.(phase := ReadFailed, body := "")];
    }

    method ReadEnds(i: nat)
      requires Valid() && i < |requests| && requests[i].phase.Reading?
      modifies this
      ensures Valid() && OnlyOwn(i, None) && unchanged(`inFlight, `cells, `bufferedRequestBytes)
      ensures requests[i] == old(requests[i]).(phase := ReadDone)
    {
      hide Counts, AdmittedOk, CompletedOk, Ledger;
      var r := requests[i].(phase := ReadDone);
      Book(i, r, cells);
      requests := requests[i := r];
    }

    /** `forward` turns the request away and runs its finally block. */
    method TurnAway(i: nat, model: Option<Model>)
      requires Valid() && i < |requests| && (requests[i].phase.ReadFailed? || requests[i].phase.ReadDone?)
      modifies this
      ensures Valid() && OnlyOwn(i, old(requests[i]).cell) && unchanged(`inFlight)
      ensures requests[i] == old(requests[i]).(phase := Leaving(false), model := model)
      ensures cells == Released(Rejected(old(cells), requests[i].cell), requests[i].cell.value)
      ensures bufferedRequestBytes == old(bufferedRequestBytes) - Held(old(requests[i]))
    {
      hide Counts, AdmittedOk, CompletedOk, Ledger;
      var r := requests[i];
      var cells' := Released(Rejected(cells, r.cell), r.cell.value);
      Book(i, r.(phase := Leaving(false), model := model), cells');
      cells := cells';
      bufferedRequestBytes := bufferedRequestBytes - if r.phase.ReadDone? then |r.body| else 0;
      requests := requests[i := r.(phase := Leaving(false), model := model)];
    }

    /** The model found in the body, if `forward` gets as far as parsing it. */
    function Named(r: Request): Option<Model>
      reads this
    {
      if r.phase.ReadDone? && active == r.cell && !closed && r.completion && parse(r.body).Some? then parse(r.body).value else None
    }

    /** `forward` after the body. */
    method AfterRead(i: nat)
      requires Valid() && i < |requests| && (requests[i].phase.ReadFailed? || requests[i].phase.ReadDone?)
      modifies this
      ensures Valid() && OnlyOwn(i, old(requests[i]).cell) && unchanged(`inFlight)
      ensures var r, named := old(requests[i]), old(Named(requests[i]));
              var goesOn := r.phase.ReadDone? && active == r.cell && !closed && (r.completion ==> named == Some(expectedModel));
              if goesOn then
                && requests[i] == r.(phase := Upstream, model := named, admitted := r.completion)
                && bufferedRequestBytes == old(bufferedRequestBytes)
                && cells == (if r.completion then Counted(old(cells), r.cell.value, named.value, r.body) else old(cells))
              else
                && requests[i] == r.(phase := Leaving(false), model := named)
                && bufferedRequestBytes == old(bufferedRequestBytes) - Held(r)
                && cells == Released(Rejected(old(cells), r.cell), r.cell.value)
    {
      hide Counts, AdmittedOk, CompletedOk, Ledger, BodiesParsed;
      var r := requests[i];
      if r.phase.ReadFailed? || active != r.cell || closed {
        TurnAway(i, None);
        return;
      }
      if r.completion {
        var payload := parse(r.body);
        if payload.None? {
          TurnAway(i, None);
          return;
        }
        var model := payload.value;
        if model != Some(expectedModel) {
          TurnAway(i, model);
          return;
        }
        Admit(i, model.value);
        return;
      }
      Book(i, r.(phase := Upstream, model := None), cells);
      requests := requests[i := r.(phase := Upstream, model := None)];
    }

    function Counted(cells: seq<Cell>, c: nat, model: Model, body: Body): seq<Cell>
      requires c < |cells|
    {
      cells[c := cells[c].(requestCount := cells[c].requestCount + 1, requestModels := cells[c].requestModels + [model],
                           requestHashes := cells[c].requestHashes + [body])]
    }

    /** A completion request that names the expected model is counted. */
    method Admit(i: nat, model: Model)
      requires Valid() && i < |requests| && requests[i].phase.ReadDone? && requests[i].completion
      requires model == expectedModel && parse(requests[i].body) == Some(Some(model))
      modifies this
      ensures Valid() && OnlyOwn(i, old(requests[i]).cell) && unchanged(`inFlight, `bufferedRequestBytes)
      ensures requests[i] == old(requests[i]).(phase := Upstream, model := Some(model), admitted := true)
      ensures cells == Counted(old(cells), requests[i].cell.value, model, requests[i].body)
    {
      hide Counts, AdmittedOk, CompletedOk, Ledger;
      var r := requests[i];
      var c, r' := r.cell.value, r.(phase := Upstream, model := Some(model), admitted := true);
      var cells' := Counted(cells, c, model, r.body);
      CountsStep(requests, cells, cells', bufferedRequestBytes, inFlight, i, r');
      LedgerAdmit(requests, i, c, cells, cells'[c], admitted, completed, model, expectedModel);
      CertifiedStep(requests, i, r', cells, cells', bufferedRequestBytes, inFlight, active, certified);
      admitted := admitted[c := admitted[c] + [i]];
      cells := cells';
      requests := requests[i := r'];
    }

    /** The upstream response ended; a redirect never gets this far. */
    method UpstreamEnds(i: nat, status: int, models: seq<Model>)
      requires Valid() && i < |requests| && requests[i].phase.Upstream?
      modifies this
      ensures Valid() && OnlyOwn(i, old(requests[i]).cell) && unchanged(`inFlight, `bufferedRequestBytes)
      ensures old(requests[i]).answer.None?
      ensures var r, a := old(requests[i]), Answer(200 <= status < 300, models);
              && requests[i] == r.(phase := Resolved, answer := if r.completion then Some(a) else None)
              && cells == if r.completion then Answered(old(cells), r.cell.value, a) else old(cells)
    {
      hide Counts, AdmittedOk, CompletedOk, Ledger;
      var r := requests[i];
      if !r.completion {
        Book(i, r.(phase := Resolved), cells);
        requests := requests[i := r.(phase := Resolved)];
        return;
      }
      CountAnswer(i, Resolved, status, models);
    }

    /** The response still ends after the exchange was given up: the counters of its cell move,
        which cannot be one that evidence was returned for. */
    method LateEnd(i: nat, status: int, models: seq<Model>)
      requires Valid() && i < |requests| && requests[i].admitted && !requests[i].phase.Upstream? && requests[i].answer.None?
      modifies this
      ensures Valid() && OnlyOwn(i, old(requests[i]).cell) && unchanged(`inFlight, `bufferedRequestBytes)
      ensures requests[i].cell.Some? ==> requests[i].cell.value !in certified
      ensures var r, a := old(requests[i]), Answer(200 <= status < 300, models);
              && requests[i] == r.(answer := Some(a))
              && r.cell.Some? && cells == Answered(old(cells), r.cell.value, a)
    {
      hide Counts, AdmittedOk, CompletedOk, Ledger;
      CountAnswer(i, requests[i].phase, status, models);
    }

    /** A cell with an admitted request that has no answer is not certified. */
    lemma UnansweredUncertified(i: nat)
      requires Valid() && i < |requests| && requests[i].admitted && requests[i].answer.None? && requests[i].cell.Some?
      ensures requests[i].cell.value !in certified
    {
      hide Counts, AdmittedOk, CompletedOk, Ledger, IsGood;
      var c := requests[i].cell.value;
      if c in certified {
        CertifiedEvidenceStands(c);
      }
    }

    /** The `end` handler for a completion request. */
    method CountAnswer(i: nat, p: Phase, status: int, models: seq<Model>)
      requires Valid() && i < |requests| && requests[i].admitted && requests[i].answer.None?
      requires p == requests[i].phase || (requests[i].phase.Upstream? && p.Resolved?)
      requires !p.Upstream?
      modifies `requests, `cells, `completed
      ensures Valid()
      ensures requests == old(requests)[i := old(requests[i]).(phase := p, answer := Some(Answer(200 <= status < 300, models)))]
      ensures requests[i].cell.Some? && requests[i].cell.value < |cells| == |old(cells)|
      ensures requests[i].cell.value !in certified
      ensures cells == Answered(old(cells), requests[i].cell.value, Answer(200 <= status < 300, models))
    {
      hide Counts, AdmittedOk, CompletedOk, Ledger;
      UnansweredUncertified(i);
      var cell := cells[requests[i].cell.value];
      if status < 200 || status >= 300 {
        cell := cell.(nonSuccess := cell.nonSuccess + 1);
      } else if |models| == 0 {
        cell := cell.(missingModel := cell.missingModel + 1);
      } else if exists m :: m in models && m != expectedModel {
        cell := cell.(mismatchedModel := cell.mismatchedModel + 1);
      } else {
        cell := cell.(completed := cell.completed + 1, responseModels := cell.responseModels + models);
      }
      assert cells[requests[i].cell.value].responseModels + [] == cells[requests[i].cell.value].responseModels;
      Settle(i, p, Answer(200 <= status < 300, models), cell);
    }

    /** Store the answer of a completion request and the counters it led to. */
    method Settle(i: nat, p: Phase, a: Answer, cell: Cell)
      requires Valid() && i < |requests| && requests[i].admitted && requests[i].answer.None?
      requires p == requests[i].phase || (requests[i].phase.Upstream? && p.Resolved?)
      requires !p.Upstream?
      requires requests[i].cell.Some? && requests[i].cell.value !in certified
      requires var was, good := cells[requests[i].cell.value], IsGood(a, expectedModel);
               && cell.requestCount == was.requestCount && cell.requestModels == was.requestModels
               && cell.requestHashes == was.requestHashes && cell.pending == was.pending && cell.rejected == was.rejected
               && cell.completed == was.completed + (if good then 1 else 0)
               && cell.responseModels == was.responseModels + if good then a.models else []
      modifies `requests, `cells, `completed
      ensures Valid()
      ensures requests == old(requests)[i := old(requests[i]).(phase := p, answer := Some(a))]
      ensures cells == old(cells)[requests[i].cell.value := cell]
    {
      hide Counts, AdmittedOk, CompletedOk, Ledger, IsGood;
      var r := requests[i];
      var c, r' := r.cell.value, r.(phase := p, answer := Some(a));
      CountsStep(requests, cells, cells[c := cell], bufferedRequestBytes, inFlight, i, r');
      LedgerAnswer(requests, i, p, a, c, cells, cell, admitted, completed, expectedModel);
      CertifiedStep(requests, i, r', cells, cells[c := cell], bufferedRequestBytes, inFlight, active, certified);
      completed := completed[c := completed[c] + if IsGood(a, expectedModel) then [i] else []];
      cells := cells[c := cell];
      requests := requests[i := r'];
    }

    function Answered(cells: seq<Cell>, c: nat, a: Answer): seq<Cell>
      requires c < |cells|
    {
      var cell := cells[c];
      cells[c := if !a.success then cell.(nonSuccess := cell.nonSuccess + 1)
                 else if a.models == [] then cell.(missingModel := cell.missingModel + 1)
                 else if IsGood(a, expectedModel)
                 then cell.(completed := cell.completed + 1, responseModels := cell.responseModels + a.models)
                 else cell.(mismatchedModel := cell.mismatchedModel + 1)]
    }

    method UpstreamFails(i: nat)
      requires Valid() && i < |requests| && requests[i].phase.Upstream?
      modifies this
      ensures Valid() && OnlyOwn(i, None) && unchanged(`inFlight, `cells, `bufferedRequestBytes)
      ensures requests[i] == old(requests[i]).(phase := Failed)
    {
      hide Counts, AdmittedOk, CompletedOk, Ledger;
      var r := requests[i].(phase := Failed);
      Book(i, r, cells);
      requests := requests[i := r];
    }

    /** The finally block of `forward` after the upstream exchange. */
    method Finally(i: nat)
      requires Valid() && i < |requests| && (requests[i].phase.Resolved? || requests[i].phase.Failed?)
      modifies this
      ensures Valid() && OnlyOwn(i, old(requests[i]).cell) && unchanged(`inFlight)
      ensures requests[i] == old(requests[i]).(phase := Leaving(old(requests[i]).phase.Failed?))
      ensures bufferedRequestBytes == old(bufferedRequestBytes) - |requests[i].body|
      ensures cells == Released(old(cells), requests[i].cell.value)
    {
      hide Counts, AdmittedOk, CompletedOk, Ledger;
      var r := requests[i];
      var cells' := Released(cells, r.cell.value);
      Book(i, r.(phase := Leaving(r.phase.Failed?)), cells');
      cells := cells';
      bufferedRequestBytes := bufferedRequestBytes - |r.body|;
      requests := requests[i := r.(phase := Leaving(r.phase.Failed?))];
    }

    /** `handle`'s catch, for a forward that threw. */
    method Catch(i: nat)
      requires Valid() && i < |requests| && requests[i].phase == Leaving(true)
      modifies this
      ensures Valid() && OnlyOwn(i, old(requests[i]).cell) && unchanged(`inFlight, `bufferedRequestBytes)
      ensures requests[i] == old(requests[i]).(phase := Leaving(false))
      ensures cells == Rejected(old(cells), requests[i].cell)
    {
      hide Counts, AdmittedOk, CompletedOk, Ledger;
      var r := requests[i].(phase := Leaving(false));
      var cells' := Rejected(cells, r.cell);
      Book(i, r, cells');
      cells := cells';
      requests := requests[i := r];
    }

    /** `handle`'s finally. */
    method Leave(i: nat)
      requires Valid() && i < |requests| && requests[i].phase == Leaving(false)
      modifies this
      ensures Valid() && OnlyOwn(i, None) && unchanged(`cells, `bufferedRequestBytes)
      ensures requests[i] == old(requests[i]).(phase := Gone) && inFlight == old(inFlight) - 1
    {
      hide Counts, AdmittedOk, CompletedOk, Ledger;
      var r := requests[i].(phase := Gone);
      Book(i, r, cells);
      requests := requests[i := r];
      inFlight := inFlight - 1;
    }

    method Close()
      requires Valid()
      modifies `closed
      ensures Valid() && closed
    {
      closed := true;
    }

    /** Any interleaving: the events that apply are carried out in the order given. Whatever
        evidence was returned, before or during it, is sound at the end. */
    method Interleave(schedule: seq<Event>)
      requires Valid()
      modifies this
      ensures Valid()
      ensures forall c | c in old(certified) :: c in certified && certified[c] == old(certified)[c]
      ensures forall c | c in certified :: c < |admitted| && c < |completed|
                                           && EvidenceSound(c, certified[c], admitted[c], completed[c])
    {
      hide Counts, Ledger, RequestsOk, RejectionsNoted, CertifiedOk, BodiesParsed;
      for k := 0 to |schedule|
        invariant Valid()
        invariant forall c | c in old(certified) :: c in certified && certified[c] == old(certified)[c]
      {
        Take(schedule[k]);
      }
      forall c | c in certified ensures c < |admitted| && c < |completed|
                                        && EvidenceSound(c, certified[c], admitted[c], completed[c]) {
        CertifiedEvidenceStands(c);
      }
    }

    method Take(e: Event)
      requires Valid()
      modifies this
      ensures Valid()
      ensures forall c | c in old(certified) :: c in certified && certified[c] == old(certified)[c]
    {
      hide Counts, Ledger, RequestsOk, RejectionsNoted, BodiesParsed;
      match e {
        case Begins(name) => var _ := BeginCell(name, true);
        case Ends(name) => var _ := EndCell(name);
        case Closes => Close();
        case Arrives(incoming) => var _ := Handle(incoming);
        case EndsLate(i, status, models) =>
          if i < |requests| && requests[i].admitted && !requests[i].phase.Upstream? && requests[i].answer.None? {
            LateEnd(i, status, models);
          }
        case Continues(i, bytes, stop, broken, status, models) =>
          if i < |requests| {
            match requests[i].phase {
              case Reading => if stop && !broken { ReadEnds(i); } else if stop { ReadAborts(i); } else { Chunk(i, bytes); }
              case ReadFailed => AfterRead(i);
              case ReadDone => AfterRead(i);
              case Upstream => if broken || 300 <= status < 400 { UpstreamFails(i); } else { UpstreamEnds(i, status, models); }
              case Resolved => Finally(i);
              case Failed => Finally(i);
              case Leaving(failed) => if failed { Catch(i); } else { Leave(i); }
              case Gone =>
            }
          }
      }
    }

    /** Buffered bytes are those of the requests in flight, within both limits, and none
        when nothing is in flight; each cell's pending count is that of its own forwards. */
    lemma Budgets()
      requires Valid()
      ensures bufferedRequestBytes == Total(requests, Held) <= MAX_BUFFERED_REQUEST_BYTES
      ensures forall r | 0 <= r < |requests| :: Held(requests[r]) <= MAX_REQUEST_BYTES
      ensures inFlight == Total(requests, InFlight) <= MAX_CONCURRENT_REQUESTS
      ensures inFlight == 0 ==> bufferedRequestBytes == 0 && forall c | 0 <= c < |cells| :: cells[c].pending == 0
      ensures forall c | 0 <= c < |cells| :: cells[c].pending == Total(requests, UnfinishedIn(c))
    {
      if inFlight == 0 {
        NoneHeld(requests, Held);
        forall c | 0 <= c < |cells| ensures cells[c].pending == 0 {
          NoneHeld(requests, UnfinishedIn(c));
        }
      }
    }
  }

  lemma {:induction false} NoneHeld(rs: seq<Request>, f: Request -> nat)
    requires Total(rs, InFlight) == 0
    requires forall r: Request | r.phase.Gone? :: f(r) == 0
    ensures Total(rs, f) == 0
  {
    if rs != [] {
      NoneHeld(rs[..|rs| - 1], f);
    }
  }

  lemma EmptyBooks(expected: Model, parse: Body -> Option<Option<Model>>)
    ensures Counts([], [], 0, 0) && Ledger([], [], [], [], expected)
    ensures RequestsOk([], 0) && RejectionsNoted([], []) && CertifiedOk([], [], None, map[]) && BodiesParsed([], parse)
  {
  }

  lemma RejectionBooks(rs: seq<Request>, cells: seq<Cell>, cell: Option<nat>, buffered: int, inFlight: int,
                       admitted: seq<seq<nat>>, completed: seq<seq<nat>>, expected: Model)
    requires cell.Some? ==> cell.value < |cells|
    requires Counts(rs, cells, buffered, inFlight) && Ledger(rs, cells, admitted, completed, expected)
    ensures Counts(rs, Rejected(cells, cell), buffered, inFlight)
    ensures Ledger(rs, Rejected(cells, cell), admitted, completed, expected)
  {
    hide IsGood, Flatten, Distinct, Total;
  }

  lemma NewCellBooks(rs: seq<Request>, cells: seq<Cell>, buffered: int, inFlight: int,
                     admitted: seq<seq<nat>>, completed: seq<seq<nat>>, expected: Model, name: string)
    requires Counts(rs, cells, buffered, inFlight) && Ledger(rs, cells, admitted, completed, expected)
    requires RequestsOk(rs, |cells|)
    ensures var cells' := cells + [Cell(name, 0, 0, 0, 0, 0, 0, 0, [], [], [])];
            Counts(rs, cells', buffered, inFlight) && Ledger(rs, cells', admitted + [[]], completed + [[]], expected)
  {
    NoneYet(rs, |cells|);
  }

  lemma {:induction false} NoneYet(rs: seq<Request>, c: nat)
    requires forall r | 0 <= r < |rs| :: rs[r].cell != Some(c)
    ensures Total(rs, UnfinishedIn(c)) == 0
  {
    if rs != [] {
      NoneYet(rs[..|rs| - 1], c);
    }
  }
}
