/** The image-generation endpoint of app/api/generate/route.ts: validate the
    request, price it, fund it from the user's paid balance or from the shared
    daily free allowance, call the external generator, and then either record
    the result or refund the paid debit. */
module GenerateRoute {
  import opened Seqs
  import opened Records
  import opened FreeTier
  import LowDb

  /** The six ratios the request schema accepts. */
  datatype AspectRatio = Square | Wide16x9 | Landscape3x2 | Portrait2x3 | Landscape4x3 | Tall9x16

  function Label(a: AspectRatio): string
  {
    match a
    case Square => "1:1"
    case Wide16x9 => "16:9"
    case Landscape3x2 => "3:2"
    case Portrait2x3 => "2:3"
    case Landscape4x3 => "4:3"
    case Tall9x16 => "9:16"
  }

  /** The schema's enum check: exactly the six labels are accepted, each as
      its own ratio. */
  function ParseAspectRatio(s: string): (r: Option<AspectRatio>)
    ensures r.Some? ==> Label(r.value) == s
    ensures forall a :: Label(a) == s ==> r == Some(a)
  {
    if s == "1:1" then Some(Square)
    else if s == "16:9" then Some(Wide16x9)
    else if s == "3:2" then Some(Landscape3x2)
    else if s == "2:3" then Some(Portrait2x3)
    else if s == "4:3" then Some(Landscape4x3)
    else if s == "9:16" then Some(Tall9x16)
    else None
  }

  datatype Size = Size(width: int, height: int)

  const MaxLongEdge := 1536
  const PixelsPerMegapixel := 1000000

  /** `Math.max(width, height)` */
  function LongEdge(s: Size): (e: int)
    ensures e >= s.width && e >= s.height
    ensures e == s.width || e == s.height
  {
    if s.width >= s.height then s.width else s.height
  }

  function Area(s: Size): int
  {
    s.width * s.height
  }

  /** The fixed output size of each ratio. Every entry fits the long-edge
      ceiling and lies between one and two megapixels. */
  function AspectToSize(a: AspectRatio): (s: Size)
    ensures s.width > 0 && s.height > 0
    ensures LongEdge(s) <= MaxLongEdge
    ensures PixelsPerMegapixel < Area(s) <= 2 * PixelsPerMegapixel
  {
    match a
    case Square => Size(1024, 1024)
    case Wide16x9 => Size(1536, 864)
    case Landscape3x2 => Size(1500, 1000)
    case Portrait2x3 => Size(1024, 1536)
    case Landscape4x3 => Size(1408, 1056)
    case Tall9x16 => Size(864, 1536)
  }

  /** `Math.ceil(pixels / 1_000_000)`: the fewest whole megapixels covering
      the area. */
  function Megapixels(pixels: nat): (mp: nat)
    ensures pixels <= mp * PixelsPerMegapixel
    ensures mp == 0 || (mp - 1) * PixelsPerMegapixel < pixels
  {
    (pixels + PixelsPerMegapixel - 1) / PixelsPerMegapixel
  }

  /** `mp * numOutputs`: one credit per started megapixel per image. An area
      of at most one megapixel costs one credit per image, one above it and
      up to two costs two; nothing is free but zero images or zero area. */
  function CostCredits(s: Size, numOutputs: nat): (c: nat)
    requires s.width >= 0 && s.height >= 0
    ensures 0 < Area(s) <= PixelsPerMegapixel ==> c == numOutputs
    ensures PixelsPerMegapixel < Area(s) <= 2 * PixelsPerMegapixel ==> c == 2 * numOutputs
    ensures c == 0 <==> numOutputs == 0 || Area(s) == 0
  {
    Megapixels(Area(s)) * numOutputs
  }

  /** Every ratio costs two credits per image, 1024x1024 included. */
  lemma TableCostIsTwoPerOutput(a: AspectRatio, numOutputs: nat)
    ensures CostCredits(AspectToSize(a), numOutputs) == 2 * numOutputs
  {
    var s := AspectToSize(a);
    var mp := Megapixels(Area(s));
    assert mp == 2;
  }

  /** The JSON body as received: a field that is absent or of the wrong JSON
      type is None. */
  datatype RawBody = RawBody(prompt: Option<string>, aspectRatio: Option<string>, numOutputs: Option<real>)

  datatype Request = Request(prompt: string, aspectRatio: AspectRatio, numOutputs: nat)

  /** `schema.safeParse`: a non-empty prompt, one of the six ratios, and an
      integer output count from 1 to 4; anything else is rejected. */
  function ParseBody(body: RawBody): (r: Option<Request>)
    ensures r.Some? <==>
      && body.prompt.Some? && |body.prompt.value| >= 1
      && body.aspectRatio.Some? && (exists a :: Label(a) == body.aspectRatio.value)
      && body.numOutputs.Some? && body.numOutputs.value == body.numOutputs.value.Floor as real
      && 1.0 <= body.numOutputs.value <= 4.0
    ensures r.Some? ==>
      && r.value.prompt == body.prompt.value
      && Label(r.value.aspectRatio) == body.aspectRatio.value
      && r.value.numOutputs as real == body.numOutputs.value
      && 1 <= r.value.numOutputs <= 4
  {
    if body.prompt.None? || |body.prompt.value| < 1 then None
    else if body.aspectRatio.None? || ParseAspectRatio(body.aspectRatio.value).None? then None
    else if body.numOutputs.None? then None
    else
      var n := body.numOutputs.value;
      if n != n.Floor as real || n < 1.0 || n > 4.0 then None
      else Some(Request(body.prompt.value, ParseAspectRatio(body.aspectRatio.value).value, n.Floor))
  }

  /** Every accepted request costs 2, 4, 6 or 8 credits. */
  lemma AcceptedCostIsTwicePerImage(body: RawBody)
    requires ParseBody(body).Some?
    ensures var req := ParseBody(body).value;
      && CostCredits(AspectToSize(req.aspectRatio), req.numOutputs) == 2 * req.numOutputs
      && 2 <= CostCredits(AspectToSize(req.aspectRatio), req.numOutputs) <= 8
  {
    var req := ParseBody(body).value;
    TableCostIsTwoPerOutput(req.aspectRatio, req.numOutputs);
  }

  /** What the external generator did: an error carrying the message the
      client wrapper rethrows, or a list of images; an empty list is
      reported as an error by the client wrapper. */
  datatype FalOutcome = FalError(message: string) | FalImages(images: seq<Image>)

  predicate Delivered(fal: FalOutcome)
  {
    fal.FalImages? && |fal.images| > 0
  }

  function ImagesOf(fal: FalOutcome): seq<Image>
  {
    if fal.FalImages? then fal.images else []
  }

  /** The 500 response's text: `Generation failed: ` and the rethrown
      error's message, or `Generation failed` when that message is empty. An
      empty image list is rethrown as `FAL returned no images`. */
  function FailureMessage(fal: FalOutcome): (m: string)
    ensures |m| > |FailurePrefix| && m[..|FailurePrefix|] == FailurePrefix
    ensures fal.FalError? && fal.message != "" ==> m[|FailurePrefix|..] == fal.message
    ensures fal.FalError? && fal.message == "" ==> m[|FailurePrefix|..] == "Generation failed"
    ensures fal.FalImages? ==> m[|FailurePrefix|..] == "FAL returned no images"
  {
    var msg :=
      if fal.FalImages? then "FAL returned no images"
      else if fal.message != "" then fal.message
      else "Generation failed";
    FailurePrefix + msg
  }

  const FailurePrefix := "Generation failed: "

  /** How a request is funded. */
  datatype Funding = PaidCredits | FreeCredits | LimitReached

  /** The admission decision: the paid balance when it covers the cost,
      otherwise the shared allowance if today's record can absorb the cost,
      otherwise refusal. A paid debit never leaves the balance negative. */
  function Admit(balance: int, cost: int, today: DailyUsage): (f: Funding)
    ensures f == PaidCredits <==> balance >= cost
    ensures f == FreeCredits <==> balance < cost && today.totalFreeCreditsValueCents + cost * CentsPerCredit <= DailyFreeLimitCents
    ensures f == PaidCredits ==> balance - cost >= 0
  {
    if balance < cost then
      if !WithinDailyCap(today, cost) then LimitReached else FreeCredits
    else PaidCredits
  }

  datatype GenerateResponse =
    | BadRequest
    | SignInRequired
    | ResolutionTooLarge
    | UserNotFound
    | DailyLimitReached(needCredits: int)
    | Generated(images: seq<Image>, costCredits: int, usingFreeCredits: bool, remainingCredits: int)
    | GenerationFailed(message: string)

  function StatusCode(r: GenerateResponse): int
  {
    match r
    case BadRequest => 400
    case SignInRequired => 401
    case ResolutionTooLarge => 400
    case UserNotFound => 404
    case DailyLimitReached(_) => 402
    case Generated(_, _, _, _) => 200
    case GenerationFailed(_) => 500
  }

  /** An identity counts only when its email is non-empty. */
  predicate SignedIn(userEmail: Option<string>)
  {
    userEmail.Some? && userEmail.value != ""
  }

  /** The three lists the handler touches, at one moment. */
  datatype Snapshot = Snapshot(users: seq<User>, generations: seq<Generation>, dailyUsage: seq<DailyUsage>)

  ghost function SnapshotOf(db: LowDb.Db): Snapshot
    reads db
  {
    Snapshot(db.users, db.generations, db.dailyUsage)
  }

  /** The outcome of a valid request from the user at position `i`, by how it
      was funded and whether the generator delivered:
      - refused: 402, nothing changes but the lazily created record for today;
      - paid and delivered: balance down by exactly the cost, which is the
        remaining balance reported, and one succeeded record appended;
      - paid and failed: every list exactly as before (full refund);
      - free and delivered: balance untouched, one record appended, and
        today's usage takes the cost and the user;
      - free and failed: nothing changes but today's (zeroed) record. */
  ghost predicate Settled(before: Snapshot, after: Snapshot, i: nat, req: Request, today: string,
                          fal: FalOutcome, genId: string, now: int, resp: GenerateResponse)
    requires i < |before.users|
  {
    var user := before.users[i];
    var size := AspectToSize(req.aspectRatio);
    var cost := CostCredits(size, req.numOutputs);
    var days := WithDay(before.dailyUsage, today);
    var funding := Admit(user.creditsBalance, cost, days[IndexOfDate(days, today).value]);
    var gen := Generation(genId, user.id, req.prompt, size.width, size.height, req.numOutputs,
                          ImagesOf(fal), cost, Succeeded, now);
    match funding
    case LimitReached =>
      && resp == DailyLimitReached(cost)
      && after == before.(dailyUsage := days)
    case PaidCredits =>
      if Delivered(fal) then
        && resp == Generated(fal.images, cost, false, user.creditsBalance - cost)
        && after == before.(users := AddCredits(before.users, i, -(cost as int)),
                            generations := before.generations + [gen])
      else
        && resp == GenerationFailed(FailureMessage(fal))
        && after == before
    case FreeCredits =>
      if Delivered(fal) then
        && resp == Generated(fal.images, cost, true, user.creditsBalance)
        && after == before.(generations := before.generations + [gen],
                            dailyUsage := RecordedOn(before.dailyUsage, today, user.id, cost))
      else
        && resp == GenerationFailed(FailureMessage(fal))
        && after == before.(dailyUsage := days)
  }

  /** `POST /api/generate`. `userEmail` is the identity the session or the
      development token resolved to, `today` the date key of the request,
      `fal` what the generator returned, `genId` and `now` the id and time
      the new record receives. Invalid input, a missing identity and an
      unknown user are answered before anything changes; the resolution
      ceiling is never exceeded by a table entry, so that answer never
      occurs. */
  method Post(db: LowDb.Db, body: RawBody, userEmail: Option<string>, today: string,
              fal: FalOutcome, genId: string, now: int) returns (resp: GenerateResponse)
    modifies db`users, db`generations, db`dailyUsage
    ensures ParseBody(body).None? ==> resp == BadRequest && unchanged(db)
    ensures ParseBody(body).Some? && !SignedIn(userEmail) ==> resp == SignInRequired && unchanged(db)
    ensures resp != ResolutionTooLarge
    ensures StatusCode(resp) == 400 <==> ParseBody(body).None?
    ensures ParseBody(body).Some? && SignedIn(userEmail) && IndexByEmail(old(db.users), userEmail.value).None? ==>
      resp == UserNotFound && unchanged(db)
    ensures ParseBody(body).Some? && SignedIn(userEmail) && IndexByEmail(old(db.users), userEmail.value).Some? ==>
      Settled(old(SnapshotOf(db)), SnapshotOf(db), IndexByEmail(old(db.users), userEmail.value).value,
              ParseBody(body).value, today, fal, genId, now, resp)
    ensures old(db.Valid()) ==> db.Valid()
  {
    var parsed := ParseBody(body);
    if parsed.None? {
      return BadRequest;
    }
    if !SignedIn(userEmail) {
      return SignInRequired;
    }
    var req := parsed.value;
    var size := AspectToSize(req.aspectRatio);
    if LongEdge(size) > MaxLongEdge {
      return ResolutionTooLarge;
    }
    var cost := CostCredits(size, req.numOutputs);

    var found := IndexByEmail(db.users, userEmail.value);
    if found.None? {
      return UserNotFound;
    }
    resp := Settle(db, found.value, req, today, fal, genId, now);
  }

  /** The part of the handler after the user is found: admission, the
      optimistic debit, the generator's outcome, and recording or refund. */
  method Settle(db: LowDb.Db, i: nat, req: Request, today: string,
                fal: FalOutcome, genId: string, now: int) returns (resp: GenerateResponse)
    requires i < |db.users|
    modifies db`users, db`generations, db`dailyUsage
    ensures Settled(old(SnapshotOf(db)), SnapshotOf(db), i, req, today, fal, genId, now, resp)
    ensures old(db.Valid()) ==> db.Valid()
  {
    var size := AspectToSize(req.aspectRatio);
    var cost := CostCredits(size, req.numOutputs);
    var user := db.users[i];
    ghost var before := SnapshotOf(db);
    ghost var days := WithDay(db.dailyUsage, today);

    if user.creditsBalance < cost {
      var canUseFree := db.CanUseFreeCreditToday(user.id, cost, today);
      if !canUseFree {
        assert SnapshotOf(db) == before.(dailyUsage := days);
        return DailyLimitReached(cost);
      }
      assert SnapshotOf(db) == before.(dailyUsage := days);
      RecordedOnAfterWithDay(before.dailyUsage, today, user.id, cost);
      resp := Fulfil(db, i, req, today, fal, genId, now, true);
    } else {
      resp := Fulfil(db, i, req, today, fal, genId, now, false);
    }
  }

  /** The outcome of an admitted request, from the store as admission left
      it: without images, every list as it was (a paid debit is refunded in
      full); with images, one succeeded record appended and either the paid
      balance down by exactly the cost or today's free usage grown by it. */
  ghost predicate Fulfilled(mid: Snapshot, after: Snapshot, i: nat, req: Request, today: string,
                            fal: FalOutcome, genId: string, now: int, free: bool, resp: GenerateResponse)
    requires i < |mid.users|
  {
    var user := mid.users[i];
    var size := AspectToSize(req.aspectRatio);
    var cost := CostCredits(size, req.numOutputs);
    var gen := Generation(genId, user.id, req.prompt, size.width, size.height, req.numOutputs,
                          ImagesOf(fal), cost, Succeeded, now);
    if !Delivered(fal) then
      resp == GenerationFailed(FailureMessage(fal)) && after == mid
    else if free then
      && resp == Generated(fal.images, cost, true, user.creditsBalance)
      && after == mid.(generations := mid.generations + [gen],
                       dailyUsage := RecordedOn(mid.dailyUsage, today, user.id, cost))
    else
      && resp == Generated(fal.images, cost, false, user.creditsBalance - cost)
      && after == mid.(users := AddCredits(mid.users, i, -(cost as int)),
                       generations := mid.generations + [gen])
  }

  /** The optimistic debit, the generator's outcome, and recording or refund. */
  method Fulfil(db: LowDb.Db, i: nat, req: Request, today: string,
                fal: FalOutcome, genId: string, now: int, usingFreeCredits: bool) returns (resp: GenerateResponse)
    requires i < |db.users|
    requires !usingFreeCredits ==> db.users[i].creditsBalance >= CostCredits(AspectToSize(req.aspectRatio), req.numOutputs)
    modifies db`users, db`generations, db`dailyUsage
    ensures Fulfilled(old(SnapshotOf(db)), SnapshotOf(db), i, req, today, fal, genId, now, usingFreeCredits, resp)
    ensures old(db.Valid()) ==> db.Valid()
  {
    var size := AspectToSize(req.aspectRatio);
    var cost := CostCredits(size, req.numOutputs);
    var user := db.users[i];
    ghost var before := SnapshotOf(db);

    // Debit the paid balance before the external call.
    if !usingFreeCredits {
      AddCreditsKeepsKeys(db.users, i, -(cost as int));
      db.users := AddCredits(db.users, i, -(cost as int));
    }

    if Delivered(fal) {
      var params := LowDb.GenerationParams(req.prompt, size.width, size.height, req.numOutputs, cost, fal.images, Succeeded);
      var gen := db.RecordGeneration(user.id, params, genId, now);
      if usingFreeCredits {
        db.RecordFreeUsage(user.id, cost, today);
      }
      resp := Generated(fal.images, cost, usingFreeCredits, db.users[i].creditsBalance);
    } else {
      // Refund the debit in full.
      if !usingFreeCredits {
        DebitThenRefund(before.users, i, cost);
        db.users := AddCredits(db.users, i, cost);
      }
      resp := GenerationFailed(FailureMessage(fal));
    }
  }
}
