/** The impulse-response request of the API (`get_var_irf`): request
    defaults, the process-wide cache of the fitted VAR model, lookup of the
    impulse and response variables by position, extraction of the
    (response, impulse) entry of every moving-average matrix, scaling by the
    shock size and numbering of the output steps. */
module VarApi {
  import opened Wrappers
  import opened Matrices
  import opened MovingAverage

  /** The columns the model is fitted on, in this order. */
  const ModelNames: seq<string> := ["FEDFUNDS", "INFLATION"]
  /** The lag order passed to `fit`. */
  const LagOrder: nat := 2

  const DefaultSteps: int := 12
  const DefaultImpulse: string := "FEDFUNDS"
  const DefaultResponse: string := "INFLATION"
  const DefaultShockSize: real := 1.0

  /** The HTTP status of every failure of the request. */
  const ServerError: nat := 500

  /** The request body: a field is None when the caller left it out. */
  datatype Request = Request(steps: Option<int>, impulse: Option<string>, response: Option<string>, shockSize: Option<real>)

  /** The request after defaults are filled in. */
  datatype Params = Params(steps: int, impulse: string, response: string, shockSize: real)

  /** A fitted VAR model: the variable names in column order and the lag
      matrices A_1 .. A_p. */
  datatype FittedModel = FittedModel(names: seq<string>, coefs: seq<Matrix>)

  datatype Point = Point(step: int, value: real)

  datatype Simulation = Simulation(impulse: string, response: string, steps: int, shockSize: real, data: seq<Point>)

  /** Why a request ended in a server error. */
  datatype Failure =
    | FitFailed                 // retrieving the data or fitting the model raised
    | NegativeHorizon(steps: int)  // `irf` cannot build a table with fewer than one row
    | UnknownVariable(name: string)  // `names.index(name)` raised

  datatype Reply = Ok(result: Simulation) | HttpError(status: nat, cause: Failure)

  /** The shape every model produced by `fit(2)` on the two columns has. */
  predicate WellFormed(m: FittedModel)
  {
    m.names == ModelNames && |m.coefs| == LagOrder && Coefficients(m.coefs, |m.names|)
  }

  /** Missing fields take their documented defaults; present fields are kept. */
  function WithDefaults(req: Request): (p: Params)
    ensures req.steps.Some? ==> p.steps == req.steps.value
    ensures req.steps.None? ==> p.steps == 12
    ensures req.impulse.Some? ==> p.impulse == req.impulse.value
    ensures req.impulse.None? ==> p.impulse == "FEDFUNDS"
    ensures req.response.Some? ==> p.response == req.response.value
    ensures req.response.None? ==> p.response == "INFLATION"
    ensures req.shockSize.Some? ==> p.shockSize == req.shockSize.value
    ensures req.shockSize.None? ==> p.shockSize == 1.0
  {
    Params(
      if req.steps.Some? then req.steps.value else DefaultSteps,
      if req.impulse.Some? then req.impulse.value else DefaultImpulse,
      if req.response.Some? then req.response.value else DefaultResponse,
      if req.shockSize.Some? then req.shockSize.value else DefaultShockSize)
  }

  /** Python's `list.index`: the first position holding x, or None (where
      Python raises ValueError). */
  function IndexOf(names: seq<string>, x: string): (r: Option<nat>)
    ensures r.None? <==> x !in names
    ensures r.Some? ==> r.value < |names| && names[r.value] == x
    ensures r.Some? ==> forall j :: 0 <= j < r.value ==> names[j] != x
  {
    if |names| == 0 then None
    else if names[0] == x then Some(0)
    else match IndexOf(names[1..], x)
      case None => None
      case Some(i) => Some(i + 1)
  }

  /** `irfs[:, row, col]`: entry (row, col) of every matrix of the table. */
  function Entries(table: seq<Matrix>, k: nat, row: nat, col: nat): (r: seq<real>)
    requires forall t :: 0 <= t < |table| ==> IsSquare(table[t], k)
    requires row < k && col < k
    ensures |r| == |table|
    ensures forall t :: 0 <= t < |table| ==> IsSquare(table[t], k) && r[t] == table[t][row][col]
  {
    seq(|table|, t requires 0 <= t < |table| => assert IsSquare(table[t], k); table[t][row][col])
  }

  /** The whole-array product `values * shock_size`. */
  function Scale(values: seq<real>, s: real): (r: seq<real>)
    ensures |r| == |values|
    ensures forall t :: 0 <= t < |values| ==> r[t] == s * values[t]
  {
    seq(|values|, t requires 0 <= t < |values| => values[t] * s)
  }

  /** `[{"step": i, "value": v} for i, v in enumerate(values)]`. */
  function Enumerate(values: seq<real>): (r: seq<Point>)
    ensures |r| == |values|
    ensures forall i :: 0 <= i < |values| ==> r[i] == Point(i, values[i])
  {
    seq(|values|, i requires 0 <= i < |values| => Point(i, values[i]))
  }

  /** The answer to one request once a fitted model is available: the
      `irf` table first, then the impulse index, then the response index,
      then the scaled series. */
  function Respond(m: FittedModel, p: Params): (r: Reply)
    requires Coefficients(m.coefs, |m.names|)
    ensures r.HttpError? ==> r.status == ServerError
    ensures r.Ok? <==> p.steps >= 0 && p.impulse in m.names && p.response in m.names
    ensures p.steps < 0 ==> r == HttpError(ServerError, NegativeHorizon(p.steps))
    ensures p.steps >= 0 && p.impulse !in m.names ==> r == HttpError(ServerError, UnknownVariable(p.impulse))
    ensures p.steps >= 0 && p.impulse in m.names && p.response !in m.names ==>
              r == HttpError(ServerError, UnknownVariable(p.response))
    ensures r.Ok? ==>
              var ri := IndexOf(m.names, p.response).value;
              var ii := IndexOf(m.names, p.impulse).value;
              && r.result.impulse == p.impulse
              && r.result.response == p.response
              && r.result.steps == p.steps
              && r.result.shockSize == p.shockSize
              && |r.result.data| == p.steps + 1
              && forall t :: 0 <= t <= p.steps ==>
                   r.result.data[t] == Point(t, p.shockSize * Phi(m.coefs, |m.names|, t)[ri][ii])
  {
    var k := |m.names|;
    if p.steps < 0 then HttpError(ServerError, NegativeHorizon(p.steps))
    else
      var table := Table(m.coefs, k, p.steps);
      match IndexOf(m.names, p.impulse)
      case None => HttpError(ServerError, UnknownVariable(p.impulse))
      case Some(ii) =>
        match IndexOf(m.names, p.response)
        case None => HttpError(ServerError, UnknownVariable(p.response))
        case Some(ri) =>
          var scaled := Scale(Entries(table, k, ri, ii), p.shockSize);
          Ok(Simulation(p.impulse, p.response, p.steps, p.shockSize, Enumerate(scaled)))
  }

  /** The fitted variable list determines the positions used for lookup. */
  lemma ModelPositions()
    ensures IndexOf(ModelNames, "FEDFUNDS") == Some(0)
    ensures IndexOf(ModelNames, "INFLATION") == Some(1)
    ensures forall x :: x != "FEDFUNDS" && x != "INFLATION" ==> IndexOf(ModelNames, x) == None
  {
  }

  /** Step 0 of a successful reply is the shock size when impulse and
      response coincide and 0 otherwise. */
  lemma ImpactValue(m: FittedModel, p: Params)
    requires WellFormed(m)
    requires Respond(m, p).Ok?
    ensures Respond(m, p).result.data[0].value == if p.impulse == p.response then p.shockSize else 0.0
  {
    var k := |m.names|;
    PhiAtImpact(m.coefs, k);
    var ri := IndexOf(m.names, p.response).value;
    var ii := IndexOf(m.names, p.impulse).value;
    assert ri == ii <==> p.impulse == p.response;
  }

  /** A request for the default horizon and variables on a fitted model
      yields 13 points whose first value is 0: the funds rate does not move
      inflation on impact. */
  lemma DefaultRequest(m: FittedModel)
    requires WellFormed(m)
    ensures var r := Respond(m, WithDefaults(Request(None, None, None, None)));
            && r.Ok?
            && |r.result.data| == 13
            && r.result.data[0] == Point(0, 0.0)
  {
    ImpactValue(m, WithDefaults(Request(None, None, None, None)));
  }

  /** Scaling is linear: the reply for shock size s is s times the reply
      for a unit shock, entry by entry, for every s including negative ones. */
  lemma ShockLinearity(m: FittedModel, p: Params, t: nat)
    requires Coefficients(m.coefs, |m.names|)
    requires Respond(m, p).Ok? && t <= p.steps
    ensures Respond(m, p.(shockSize := 1.0)).Ok?
    ensures Respond(m, p).result.data[t].value == p.shockSize * Respond(m, p.(shockSize := 1.0)).result.data[t].value
  {
  }

  /** A unit shock returns the unscaled moving-average entries. */
  lemma UnitShock(m: FittedModel, p: Params, t: nat)
    requires Coefficients(m.coefs, |m.names|)
    requires Respond(m, p).Ok? && p.shockSize == 1.0 && t <= p.steps
    ensures Respond(m, p).result.data[t].value
         == Phi(m.coefs, |m.names|, t)[IndexOf(m.names, p.response).value][IndexOf(m.names, p.impulse).value]
  {
  }

  /** If neither lag of the funds-rate equation loads on inflation, the funds
      rate never responds to an inflation shock. */
  lemma NoFeedbackToFundsRate(m: FittedModel, p: Params, t: nat)
    requires WellFormed(m)
    requires forall i :: 0 <= i < |m.coefs| ==> m.coefs[i][0][1] == 0.0
    requires p.impulse == "INFLATION" && p.response == "FEDFUNDS" && 0 <= t <= p.steps
    ensures Respond(m, p).Ok? && Respond(m, p).result.data[t].value == 0.0
  {
    var k := |m.names|;
    forall i | 0 <= i < |m.coefs|
      ensures LowerTriangular(m.coefs[i], k)
    {
    }
    PhiLowerTriangular(m.coefs, k, t);
    ModelPositions();
  }

  /** How many of the recorded fit attempts succeeded. */
  function Successes(attempts: seq<Result<seq<Matrix>, string>>): nat
  {
    if |attempts| == 0 then 0
    else Successes(attempts[..|attempts| - 1]) + (if attempts[|attempts| - 1].Success? then 1 else 0)
  }

  lemma {:induction false} NoSuccesses(attempts: seq<Result<seq<Matrix>, string>>)
    requires forall i :: 0 <= i < |attempts| ==> attempts[i].Failure?
    ensures Successes(attempts) == 0
  {
    if |attempts| > 0 {
      NoSuccesses(attempts[..|attempts| - 1]);
    }
  }

  /** A history in which only the last attempt may succeed holds at most one
      successful fit, and holds one exactly when the last attempt succeeded:
      the model is fitted at most once per process. */
  lemma AtMostOneFit(attempts: seq<Result<seq<Matrix>, string>>)
    requires forall i :: 0 <= i < |attempts| - 1 ==> attempts[i].Failure?
    ensures Successes(attempts) <= 1
    ensures Successes(attempts) == 1 <==> |attempts| > 0 && attempts[|attempts| - 1].Success?
  {
    if |attempts| > 0 {
      NoSuccesses(attempts[..|attempts| - 1]);
    }
  }

  /** The process-wide state of the API module: `var_model_results`, None
      until the first successful fit and never replaced afterwards. */
  class VarService {
    var cache: Option<FittedModel>
    /** Every outcome of retrieving and fitting so far, in order. */
    ghost var attempts: seq<Result<seq<Matrix>, string>>

    /** The fit ran until it first succeeded and never again: only the last
        attempt can be a success, and when it is, its matrices are the
        cached model. */
    ghost predicate Valid()
      reads this
    {
      && (forall i :: 0 <= i < |attempts| - 1 ==> attempts[i].Failure?)
      && (cache.Some? <==> |attempts| > 0 && attempts[|attempts| - 1].Success?)
      && (cache.Some? ==>
            && cache.value == FittedModel(ModelNames, attempts[|attempts| - 1].value)
            && WellFormed(cache.value))
    }

    constructor ()
      ensures Valid() && cache == None && attempts == []
    {
      cache := None;
      attempts := [];
    }

    /** One POST to /simulate/var_irf. `fit` is what retrieving the series
        and fitting VAR(2) would produce if it were run now: the two lag
        matrices, or the exception it raises. It is consulted only while the
        cache is empty. */
    method SimulateIrf(req: Request, fit: Result<seq<Matrix>, string>) returns (reply: Reply)
      requires Valid()
      requires fit.Success? ==> |fit.value| == LagOrder && Coefficients(fit.value, |ModelNames|)
      modifies this
      ensures Valid()
      ensures old(cache).Some? ==> cache == old(cache) && attempts == old(attempts)
      ensures old(cache).None? ==> attempts == old(attempts) + [fit]
      ensures old(cache).None? && fit.Success? ==> cache == Some(FittedModel(ModelNames, fit.value))
      ensures old(cache).None? && fit.Failure? ==> cache == None
      ensures cache.None? ==> reply == HttpError(ServerError, FitFailed)
      ensures cache.Some? ==> reply == Respond(cache.value, WithDefaults(req))
    {
      var p := WithDefaults(req);
      if cache.None? {
        attempts := attempts + [fit];
        if fit.Failure? {
          return HttpError(ServerError, FitFailed);
        }
        cache := Some(FittedModel(ModelNames, fit.value));
      }
      reply := Respond(cache.value, p);
    }
  }

  /** Two requests in a row: the second is answered from the model the
      first one stored, whatever a refit would have produced. */
  method TwoRequests(first: Request, second: Request, fit1: Result<seq<Matrix>, string>, fit2: Result<seq<Matrix>, string>)
      returns (r1: Reply, r2: Reply)
    requires fit1.Success? && |fit1.value| == LagOrder && Coefficients(fit1.value, |ModelNames|)
    requires fit2.Success? ==> |fit2.value| == LagOrder && Coefficients(fit2.value, |ModelNames|)
    ensures r1 == Respond(FittedModel(ModelNames, fit1.value), WithDefaults(first))
    ensures r2 == Respond(FittedModel(ModelNames, fit1.value), WithDefaults(second))
  {
    var service := new VarService();
    r1 := service.SimulateIrf(first, fit1);
    r2 := service.SimulateIrf(second, fit2);
  }
}
