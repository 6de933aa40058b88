/**
 At most one Apple submission per disk image, scripts/macos-notarize-retained.py. The
 state is a directory with a report that is rewritten in place: a process that is killed
 while it writes leaves a torn report. Kills, failures of external tools and Apple's
 answers are arbitrary, except in a `calm` run, where nothing goes wrong.
 */
module Notarization {
  import opened Common

  datatype Status = OutcomeUnknown | InProgress | Accepted | Invalid | Rejected | Other

  /** The `notarization` entry of the report. */
  datatype Request = Request(sha: string, status: Status, id: Option<string>)

  /** `owner` stands for scope, controller, target and sources; `commands` is the number
      of recorded commands. */
  datatype Report = Report(owner: string, commands: nat, request: Option<Request>, stapled: Option<string>,
                           passed: bool, pending: bool, cleanupComplete: bool)

  /** report.json: absent, cut off in the middle of a write, or whole. */
  datatype Stored = Missing | Torn | Intact(report: Report)

  datatype Log = Log(jobId: string, status: Status, sha: string)

  datatype Outcome = Passed | Refused | Pending | Killed

  datatype Poll = Done | Undecided | Failed | Died

  /** `digest` and the ticket that the stapler adds. */
  datatype Tools = Tools(digest: seq<byte> -> string, staple: seq<byte> -> seq<byte>)

  /** No two of these images have the same digest. */
  ghost predicate Injective(t: Tools, images: set<seq<byte>>) {
    forall x, y | x in images && y in images && t.digest(x) == t.digest(y) :: x == y
  }

  function Stapled(t: Tools, image: seq<byte>, times: nat): seq<byte> {
    if times == 0 then image else t.staple(Stapled(t, image, times - 1))
  }

  /** `image` is `original` with one or more tickets and no other change. */
  ghost predicate Ticketed(t: Tools, original: seq<byte>, image: seq<byte>) {
    exists times: nat :: times > 0 && image == Stapled(t, original, times)
  }

  /** The same, if digests tell the images apart that were looked at. */
  ghost predicate Genuine(t: Tools, seen: set<seq<byte>>, original: seq<byte>, image: seq<byte>) {
    Injective(t, seen) ==> Ticketed(t, original, image)
  }

  /** The digest of an image that was looked at and is genuine. */
  ghost predicate GenuineDigest(t: Tools, seen: set<seq<byte>>, original: seq<byte>, digest: string) {
    exists image :: image in seen && Genuine(t, seen, original, image) && digest == t.digest(image)
  }

  lemma GenuineDigestStays(t: Tools, seen: set<seq<byte>>, more: set<seq<byte>>, original: seq<byte>, digest: string)
    requires seen <= more && GenuineDigest(t, seen, original, digest)
    ensures GenuineDigest(t, more, original, digest)
  {
    var image :| image in seen && Genuine(t, seen, original, image) && digest == t.digest(image);
    GenuineStays(t, seen, more, original, image);
  }

  /** An image whose digest a genuine one has is genuine itself. */
  lemma GenuineByDigest(t: Tools, seen: set<seq<byte>>, original: seq<byte>, image: seq<byte>)
    requires image in seen && GenuineDigest(t, seen, original, t.digest(image))
    ensures Genuine(t, seen, original, image)
  {
  }

  lemma GenuineStays(t: Tools, seen: set<seq<byte>>, more: set<seq<byte>>, original: seq<byte>, image: seq<byte>)
    requires seen <= more && Genuine(t, seen, original, image)
    ensures Genuine(t, more, original, image)
  {
  }

  lemma TicketedAgain(t: Tools, original: seq<byte>, image: seq<byte>)
    requires image == original || Ticketed(t, original, image)
    ensures Ticketed(t, original, t.staple(image))
  {
    var times: nat :| image == Stapled(t, original, times);
    assert t.staple(image) == Stapled(t, original, times + 1);
  }

  /** The digest the image must have before a run may go on. */
  function Expected(report: Report): Option<string> {
    if report.stapled.Some? then report.stapled
    else if report.request.Some? then Some(report.request.value.sha)
    else None
  }

  /** As long as no ticket has been recorded, the report is about the image with digest `d`. */
  predicate About(r: Report, d: string) {
    r.stapled.None? && r.request.Some? ==> r.request.value.sha == d
  }

  method Trouble(calm: bool) returns (trouble: bool)
    ensures calm ==> !trouble
  {
    trouble := *;
    if calm { trouble := false; }
  }

  /** Whether a run may wait for the retained request. */
  predicate Continuable(r: Report) {
    r.request.None? || (r.request.value.id.Some? && r.request.value.status in {InProgress, Accepted})
  }

  /** A request that Apple has not decided or has accepted. */
  predicate Waiting(r: Report) {
    r.request.Some? && r.request.value.id.Some? && r.request.value.status in {InProgress, Accepted}
  }

  /** What only the beginning and the end of a run change. */
  predicate SameRun(before: Report, after: Report) {
    after.owner == before.owner && after.passed == before.passed && after.cleanupComplete == before.cleanupComplete
  }

  /** A report that `owner` may go on with, written out: its own, with an identified request
      that Apple has accepted or that the report calls pending, without a pass, and with the
      signing material removed. */
  predicate MayGoOn(r: Report, owner: string) {
    match r.request
    case None => false
    case Some(request) =>
      && r.owner == owner && request.id != None
      && (request.status == Accepted || (request.status == InProgress && r.pending))
      && r.passed == false && r.cleanupComplete == true
  }

  class Directory {
    const tools: Tools

    var image: seq<byte>
    var stored: Stored
    var attempts: set<nat>

    /** What Apple has received, the logs it has returned, and every image of which a run
        has taken the digest. */
    ghost var uploads: seq<seq<byte>>
    ghost var logs: set<Log>
    ghost var seen: set<seq<byte>>

    constructor (tools: Tools, image: seq<byte>)
      ensures this.tools == tools && this.image == image && stored == Missing && attempts == {} && uploads == []
      ensures Valid()
    {
      this.tools, this.image, stored, attempts := tools, image, Missing, {};
      uploads, logs, seen := [], {}, {};
    }

    /** What a report says is true. */
    ghost predicate Sound(r: Report) reads this {
      && (r.request.None? ==> uploads == [] && r.stapled.None? && !r.passed)
      && (r.request.Some? && uploads != [] ==> r.request.value.sha == tools.digest(uploads[0]))
      && (r.request.Some? && r.request.value.id.Some? ==> uploads != [])
      && (r.stapled.Some? ==>
           && uploads != []
           && GenuineDigest(tools, seen, uploads[0], r.stapled.value))
      && (r.passed ==>
           r.stapled.Some? && r.request.value.id.Some?
           && Log(r.request.value.id.value, Accepted, r.request.value.sha) in logs)
    }

    /** Apple has received at most one image, and only after the report said so. */
    ghost predicate Valid() reads this {
      && |uploads| <= 1 && (uploads != [] ==> uploads[0] in seen)
      && (stored.Missing? ==> uploads == [])
      && (stored.Intact? ==> Sound(stored.report))
    }

    /** Something that the next run will see as a submission. */
    predicate Recorded() reads this {
      stored.Torn? || (stored.Intact? && stored.report.request.Some?)
    }

    /** The report on disk, if there is one, is about the image with digest `d`. */
    predicate Keeps(d: string) reads this { stored.Intact? ==> About(stored.report, d) }

    /** The report as a run reads it, None when it does not parse. */
    function Loaded(owner: string): Option<Report> reads this {
      match stored
      case Missing => Some(Report(owner, 0, None, None, false, false, false))
      case Torn => None
      case Intact(r) => Some(r)
    }

    /** Whether a run gets past its first checks. */
    predicate Startable(owner: string) reads this {
      && Loaded(owner).Some?
      && (var r := Loaded(owner).value;
          && (Expected(r).Some? ==> tools.digest(image) == Expected(r).value)
          && r.commands !in attempts)
    }

    /** The report has the digest that the ticket gave the image. */
    predicate StapleRecorded() reads this { stored.Intact? && stored.report.stapled == Some(tools.digest(image)) }

    /** What a report says stays true when the digests of more images are taken. */
    twostate lemma SoundStays(r: Report)
      requires old(Sound(r)) && uploads == old(uploads) && logs == old(logs) && old(seen) <= seen
      ensures Sound(r)
    {
      if r.stapled.Some? { GenuineDigestStays(tools, old(seen), seen, uploads[0], r.stapled.value); }
    }

    /** The digest of the image is taken, by a run whose report is `r`. */
    ghost method Look(r: Report)
      requires Valid() && Sound(r)
      modifies this`seen
      ensures Valid() && Sound(r) && seen == old(seen) + {image}
    {
      seen := seen + {image};
      SoundStays(r);
      if stored.Intact? { SoundStays(stored.report); }
    }

    /** `save`: false when the process is killed meanwhile. */
    method Save(r: Report, calm: bool) returns (alive: bool)
      requires Valid() && Sound(r)
      modifies this`stored
      ensures Valid()
      ensures stored in {old(stored), Torn, Intact(r)} && (alive ==> stored == Intact(r)) && (calm ==> alive)
    {
      var killed := Trouble(calm);
      if killed { return false; }
      stored := Torn;
      killed := Trouble(calm);
      if killed { return false; }
      stored := Intact(r);
      killed := Trouble(calm);
      alive := !killed;
    }

    /** `submit_once`; on Failed the exception is the caller's to handle. */
    method SubmitOnce(before: Report, calm: bool, ghost d: string) returns (r: Report, poll: Poll)
      requires Valid() && Sound(before) && Keeps(d) && About(before, d)
      requires image in seen && (before.request.None? ==> d == tools.digest(image))
      modifies this`stored, this`uploads
      ensures Valid() && (poll != Died ==> Sound(r))
      ensures Keeps(d) && About(r, d)
      ensures uploads == old(uploads) || (before.request.None? && uploads == [image] && Recorded())
      ensures before.request.Some? ==> poll == Failed && r == before && stored == old(stored) && uploads == old(uploads)
      ensures poll == Done ==>
        uploads == [image] && r.request.Some? && r.request.value.id.Some? && r.request.value.status == InProgress
      ensures poll != Undecided && (Recorded() || stored == old(stored))
      ensures calm && before.request.None? ==> poll == Done
      ensures SameRun(before, r) && r.stapled == before.stapled
    {
      r := before;
      if r.request.Some? { return r, Failed; }
      r := r.(request := Some(Request(tools.digest(image), OutcomeUnknown, None)));
      var alive := Save(r, calm);
      if !alive { return r, Died; }
      r := r.(commands := r.commands + 1);
      var trouble := Trouble(calm);
      if trouble { return r, Failed; }
      uploads := uploads + [image];
      trouble := Trouble(calm);
      if trouble { return r, Died; }
      var reply: string := *;
      trouble := Trouble(calm);
      if trouble { return r, Failed; }
      r := r.(request := Some(r.request.value.(id := Some(reply), status := InProgress)), pending := true);
      alive := Save(r, calm);
      poll := if alive then Done else Died;
    }

    /** One turn of `await_notary`; Undecided while the request is in progress. */
    method PollOnce(before: Report, calm: bool, ghost d: string) returns (r: Report, poll: Poll)
      requires Valid() && Sound(before) && Keeps(d) && About(before, d) && before.request.Some?
      requires before.request.value.id.Some?
      modifies this`stored, this`logs
      ensures Valid() && Sound(r) && logs >= old(logs) && (Recorded() || stored == old(stored))
      ensures Keeps(d) && About(r, d)
      ensures Polled(before, r)
      ensures poll == Done ==> AcceptedInLog(r)
      ensures poll == Undecided ==> r.request.value.status == InProgress
      ensures calm ==> poll == Done
    {
      r := before.(commands := before.commands + 1);
      var id, status := *, *;
      if calm { id, status := r.request.value.id.value, Accepted; }
      var failed := Trouble(calm);
      if failed || id != r.request.value.id.value { return r, Failed; }
      r := r.(request := Some(r.request.value.(status := status)));
      var alive := Save(r, calm);
      if !alive { return r, Died; }
      if status !in {Accepted, Invalid, Rejected} { return r, if status == InProgress then Undecided else Failed; }
      r, poll := ReadLog(r, calm, d);
    }

    /** The log of a finished request. */
    method ReadLog(before: Report, calm: bool, ghost d: string) returns (r: Report, poll: Poll)
      requires Valid() && Sound(before) && Keeps(d) && About(before, d) && before.request.Some?
      requires before.request.value.id.Some?
      modifies this`stored, this`logs
      ensures Valid() && Sound(r) && logs >= old(logs) && (Recorded() || stored == old(stored))
      ensures Keeps(d) && About(r, d)
      ensures Polled(before, r) && poll != Undecided
      ensures poll == Done ==> AcceptedInLog(r)
      ensures calm && before.request.value.status == Accepted ==> poll == Done
    {
      var log := *;
      if calm { log := Log(before.request.value.id.value, Accepted, before.request.value.sha); }
      r := before.(commands := before.commands + 1);
      var failed := Trouble(calm);
      if failed { return r, Failed; }
      logs := logs + {log};
      var alive := Save(r, calm);
      if !alive { return r, Died; }
      var request := r.request.value;
      var accepted := request.status == Accepted && log == Log(request.id.value, Accepted, request.sha);
      poll := if accepted then Done else Failed;
    }

    /** `await_notary`, with at most `polls` turns before the deadline. */
    method AwaitNotary(before: Report, polls: nat, calm: bool, ghost d: string) returns (r: Report, poll: Poll)
      requires Valid() && Sound(before) && Keeps(d) && About(before, d)
      modifies this`stored, this`logs
      ensures Valid() && Sound(r) && logs >= old(logs) && (Recorded() || stored == old(stored))
      ensures Keeps(d) && About(r, d)
      ensures Polled(before, r)
      ensures poll == Done ==> AcceptedInLog(r)
      ensures poll == Undecided ==> Waiting(r) && r.pending
      ensures calm && before.request.Some? && Continuable(before) ==> poll == Done
    {
      r := before;
      if r.request.None? || r.request.value.id.None? || r.request.value.status !in {InProgress, Accepted} {
        return r, Failed;
      }
      var turn := 0;
      while true
        invariant Valid() && Sound(r) && logs >= old(logs) && (Recorded() || stored == old(stored))
        invariant Polled(before, r) && Keeps(d) && About(r, d) && turn <= polls
        decreases polls - turn
      {
        r, poll := PollOnce(r, calm, d);
        if poll != Undecided { return; }
        if turn == polls {
          r := r.(pending := true);
          var alive := Save(r, calm);
          return r, if alive then Undecided else Died;
        }
        turn := turn + 1;
      }
    }

    /** Apple's log for the retained request accepts the digest that was submitted. */
    ghost predicate AcceptedInLog(r: Report) reads this {
      && r.request.Some? && r.request.value.id.Some?
      && Log(r.request.value.id.value, Accepted, r.request.value.sha) in logs
    }

    /** The image is the submitted one, with or without tickets. */
    ghost predicate Known() reads this {
      uploads != [] && (image == uploads[0] || Genuine(tools, seen, uploads[0], image))
    }

    lemma CheckedImageIsKnown(r: Report)
      requires Valid() && Sound(r) && uploads != [] && image in seen && Expected(r) == Some(tools.digest(image))
      ensures Known()
    {
      if r.stapled.Some? { GenuineByDigest(tools, seen, uploads[0], image); }
    }

    lemma StapledIsGenuine()
      requires Known()
      ensures Genuine(tools, seen, uploads[0], tools.staple(image))
    {
      if Injective(tools, seen) { TicketedAgain(tools, uploads[0], image); }
    }

    lemma StapleIsSound(before: Report, r: Report)
      requires Sound(before) && before.request.Some? && uploads != []
      requires image in seen && Genuine(tools, seen, uploads[0], image)
      requires r.request == before.request && r.passed == before.passed && r.stapled == Some(tools.digest(image))
      ensures Sound(r)
    {
    }

    /** The ticket is stapled and the digest of the result is taken. */
    method Paste(ghost r: Report)
      requires Valid() && Sound(r) && Known()
      modifies this`image, this`seen
      ensures Valid() && Sound(r) && image == tools.staple(old(image))
      ensures seen == old(seen) + {image} && Genuine(tools, seen, uploads[0], image)
    {
      StapledIsGenuine();
      image := tools.staple(image);
      Look(r);
      GenuineStays(tools, old(seen), seen, uploads[0], image);
    }

    /** Stapling and what is recorded about it. */
    method Staple(before: Report, calm: bool, ghost d: string) returns (r: Report, poll: Poll)
      requires Valid() && Sound(before) && Keeps(d) && About(before, d) && Known() && AcceptedInLog(before)
      modifies this`stored, this`image, this`seen
      ensures Valid() && Sound(r) && Known() && AcceptedInLog(r) && (Recorded() || stored == old(stored))
      ensures old(seen) <= seen <= old(seen) + {image}
      ensures poll != Undecided
      ensures Keeps(d) && About(r, d)
      ensures SameRun(before, r) && r.request == before.request
      ensures poll == Done ==>
        r.stapled.Some? && Genuine(tools, seen, uploads[0], image) && r.stapled.value == tools.digest(image)
      ensures calm ==> poll == Done
    {
      r := before.(commands := before.commands + 1);
      var trouble := Trouble(calm);
      if trouble {
        var stapled, died := *, *;
        StapledIsGenuine();
        if stapled { image := tools.staple(image); }
        poll := if died then Died else Failed;
      } else {
        Paste(r);
        r, poll := RecordStaple(r, calm, d);
      }
    }

    /** The new digest is retained before anything else is done with the image. */
    method RecordStaple(before: Report, calm: bool, ghost d: string) returns (r: Report, poll: Poll)
      requires Valid() && Sound(before) && Keeps(d) && before.request.Some? && uploads != []
      requires image in seen && Genuine(tools, seen, uploads[0], image)
      modifies this`stored
      ensures Recorded() || stored == old(stored)
      ensures Valid() && Sound(r) && Keeps(d) && (poll == Done || poll == Died) && (calm ==> poll == Done)
      ensures r == before.(stapled := Some(tools.digest(image)))
    {
      r := before.(stapled := Some(tools.digest(image)));
      StapleIsSound(before, r);
      var alive := Save(r, calm);
      poll := if alive then Done else Died;
    }

    /** Commands whose failure raises: `count` of them, all before or after the request. */
    method Checks(before: Report, count: nat, calm: bool) returns (r: Report, ok: bool)
      ensures calm ==> ok
      ensures r == before.(commands := r.commands)
    {
      r := before.(commands := before.commands + count);
      var trouble := Trouble(calm);
      ok := !trouble;
    }

    /** The Gatekeeper check, which is saved, and `count` further checks. */
    method Preflight(before: Report, count: nat, calm: bool, ghost d: string) returns (r: Report, poll: Poll)
      requires Valid() && Sound(before) && Keeps(d) && About(before, d)
      modifies this`stored
      ensures Valid() && r == before.(commands := r.commands) && poll != Undecided && (calm ==> poll == Done)
      ensures Keeps(d) && About(r, d)
      ensures before.request.Some? && old(Recorded()) ==> Recorded()
    {
      var ok: bool;
      r, ok := Checks(before, 1, calm);
      if !ok { return r, Failed; }
      var alive := Save(r, calm);
      if !alive { return r, Died; }
      r, ok := Checks(r, count, calm);
      poll := if ok then Done else Failed;
    }

    /** The submission, unless there has been one, and the wait for Apple's verdict. */
    method Settle(before: Report, polls: nat, calm: bool, ghost d: string) returns (r: Report, poll: Poll)
      requires Valid() && Sound(before) && Keeps(d) && About(before, d)
      requires image in seen && (before.request.None? ==> d == tools.digest(image))
      modifies this`stored, this`uploads, this`logs
      ensures Valid() && (poll != Died ==> Sound(r)) && (Recorded() || stored == old(stored))
      ensures Keeps(d) && About(r, d)
      ensures uploads == old(uploads) || (before.request.None? && uploads == [image])
      ensures before.request.None? ==> poll == Done ==> uploads == [image]
      ensures SameRun(before, r) && r.stapled == before.stapled
      ensures before.request.Some? ==> r.request.Some? && Expected(r) == Expected(before)
      ensures poll == Undecided ==> Waiting(r) && r.pending
      ensures poll == Done ==> AcceptedInLog(r) && (before.request.None? ==> Expected(r) == Some(tools.digest(image)))
      ensures calm && Continuable(before) ==> poll == Done
    {
      r := before;
      if r.request.None? {
        r, poll := SubmitOnce(r, calm, d);
        if poll != Done { return; }
      }
      r, poll := AwaitNotary(r, polls, calm, d);
    }

    /** Stapling, and the checks of the stapled image. */
    method Ticket(before: Report, count: nat, calm: bool, ghost d: string) returns (r: Report, poll: Poll)
      requires Valid() && Sound(before) && Keeps(d) && About(before, d) && Known() && AcceptedInLog(before)
      modifies this`stored, this`image, this`seen
      ensures Valid() && Sound(r) && Known() && poll != Undecided && (Recorded() || stored == old(stored))
      ensures old(seen) <= seen <= old(seen) + {image}
      ensures Keeps(d) && About(r, d)
      ensures SameRun(before, r.(passed := before.passed)) && r.request == before.request
      ensures calm ==> poll == Done
      ensures if poll == Done then r.passed && Genuine(tools, seen, uploads[0], image) else r.passed == before.passed
      ensures AcceptedInLog(r)
    {
      r, poll := Staple(before, calm, d);
      if poll != Done { return; }
      var ok: bool;
      r, ok := Checks(r, count, calm);
      if !ok { return r, Failed; }
      r := r.(passed := true, pending := false);
    }

    /** The guarded block of `complete_dmg_ticket`. */
    method Attempt(before: Report, polls: nat, calm: bool, ghost d: string) returns (r: Report, poll: Poll)
      requires Valid() && Sound(before) && Keeps(d) && About(before, d)
      requires image in seen && (before.request.None? ==> d == tools.digest(image))
      requires Expected(before).Some? ==> Expected(before).value == tools.digest(image)
      modifies this`stored, this`uploads, this`logs, this`image, this`seen
      ensures Valid() && (poll != Died ==> Sound(r)) && old(seen) <= seen <= old(seen) + {image}
      ensures Keeps(d) && About(r, d)
      ensures uploads == old(uploads) || (before.request.None? && uploads == [old(image)])
      ensures image == old(image) || Known()
      ensures before.request.Some? ==> r.request.Some? && (old(Recorded()) ==> Recorded())
      ensures calm && Continuable(before) ==> poll == Done
      ensures poll == Done ==> r.passed && AcceptedInLog(r) && uploads != [] && Genuine(tools, seen, uploads[0], image)
    {
      if before.request.Some? && uploads != [] { CheckedImageIsKnown(before); }
      r, poll := Preflight(before, 2, calm, d);
      if poll != Done { return; }
      r, poll := Settle(r, polls, calm, d);
      if poll != Done { return; }
      r, poll := Ticket(r, 4, calm, d);
    }

    /** `complete_dmg_ticket`. */
    method CompleteTicket(owner: string, polls: nat, calm: bool) returns (outcome: Outcome)
      requires Valid()
      modifies this
      ensures Valid()
      ensures uploads == old(uploads) || (old(uploads) == [] && !old(Recorded()) && uploads == [old(image)])
      ensures old(Recorded()) ==> Recorded()
      ensures old(seen) <= seen <= old(seen) + {old(image), image}
      ensures image == old(image) || Known()
      ensures outcome == Passed ==>
        && stored.Intact? && stored.report.passed && AcceptedInLog(stored.report)
        && uploads != [] && Genuine(tools, seen, uploads[0], image)
      ensures !old(Startable(owner)) ==> outcome == Refused && Same()
      ensures calm && old(Startable(owner)) && Continuable(old(Loaded(owner)).value) ==> outcome == Passed
      ensures outcome == Killed && stored == old(stored) && attempts != old(attempts) ==> !Startable(owner)
      ensures tools.digest(image) != tools.digest(old(image)) ==>
        (Startable(owner) <==> StapleRecorded() && stored.report.commands !in attempts)
    {
      if stored.Torn? { return Refused; }
      var r := Loaded(owner).value;
      Look(r);
      if Expected(r).Some? && tools.digest(image) != Expected(r).value { return Refused; }
      if r.commands in attempts { return Refused; }
      attempts := attempts + {r.commands};
      ghost var d := tools.digest(image);
      var killed := Trouble(calm);
      if killed { return Killed; }
      var poll;
      r, poll := Attempt(r, polls, calm, d);
      if poll == Died { return Killed; }
      var alive := Save(r, calm);
      outcome := if !alive then Killed
                 else if poll == Done then Passed else if poll == Undecided then Pending else Refused;
    }

    /** The report names a request that is worth waiting for. */
    predicate Awaiting() reads this { stored.Intact? && Waiting(stored.report) }

    /** `validate_resume`. */
    predicate Resumable(owner: string) reads this {
      && stored.Intact? && stored.report.owner == owner && stored.report.request.Some?
      && stored.report.request.value.id.Some?
      && (stored.report.request.value.status == Accepted
          || (stored.report.request.value.status == InProgress && stored.report.pending))
      && !stored.report.passed && stored.report.cleanupComplete
    }

    /** A run that gets past its check of the retained report. */
    predicate Admitted(resume: bool, owner: string) reads this { if resume then Resumable(owner) else stored.Missing? }

    /** A run that gets past its checks of the retained state. */
    predicate Runnable(resume: bool, owner: string) reads this {
      if resume then Resumable(owner) && Expected(stored.report) == Some(tools.digest(image)) else stored.Missing?
    }

    /** The first steps within the signing context: the retained image is still the one
        that is expected, or a new one has been signed. */
    method Enter(resume: bool, before: Report, calm: bool) returns (r: Report, ok: bool)
      ensures r == before.(cleanupComplete := false, commands := r.commands)
      ensures ok && resume ==> Expected(before) == Some(tools.digest(image))
      ensures calm && (resume ==> Expected(before) == Some(tools.digest(image))) ==> ok
    {
      r := before.(cleanupComplete := false);
      if resume { return r, Expected(r) == Some(tools.digest(image)); }
      r, ok := Checks(r, 1, calm);
    }

    /** Leaving the signing context, which is recorded. */
    method Leave(before: Report, calm: bool, ghost d: string) returns (r: Report, alive: bool)
      requires Valid() && Sound(before) && Keeps(d) && About(before, d)
      modifies this`stored
      ensures Valid() && Sound(r) && Keeps(d) && r == before.(cleanupComplete := true) && (calm ==> alive)
    {
      r := before.(cleanupComplete := true);
      alive := Save(r, calm);
    }

    /** From the retained or new request to Apple's verdict, within the signing context.
        `left` says that the context was left again, or that it was never entered. */
    method Sign(resume: bool, before: Report, polls: nat, calm: bool, ghost d: string)
      returns (r: Report, poll: Poll, left: bool)
      requires Valid() && Sound(before) && Keeps(d) && About(before, d)
      requires image in seen && (before.request.None? ==> d == tools.digest(image))
      requires (resume <==> before.request.Some?) && (resume ==> before.cleanupComplete)
      modifies this`stored, this`uploads, this`logs
      ensures Valid() && (poll != Died ==> Sound(r))
      ensures Keeps(d) && About(r, d)
      ensures uploads == old(uploads) || (!resume && uploads == [image])
      ensures SameRun(before, r.(cleanupComplete := before.cleanupComplete))
      ensures resume ==> Expected(r) == Expected(before)
      ensures poll == Done ==> AcceptedInLog(r) && Known() && Expected(r) == Some(tools.digest(image))
      ensures poll == Undecided ==> Waiting(r) && r.pending
      ensures poll != Died ==> if r.request.Some? then r.cleanupComplete == left else poll == Failed
      ensures poll == Done || poll == Undecided ==> left
      ensures calm && Continuable(before) && (resume ==> Expected(before) == Some(tools.digest(image))) ==> poll == Done
    {
      var ok;
      left := true;
      r, poll := Preflight(before, 0, calm, d);
      if poll != Done { return; }
      left := false;
      r, ok := Enter(resume, r, calm);
      if !ok {
        poll := Failed;
        return;
      }
      if resume && uploads != [] { CheckedImageIsKnown(r); }
      r, poll := Settle(r, polls, calm, d);
      if poll == Done || poll == Undecided {
        left := true;
        r, ok := Leave(r, calm, d);
        if !ok { poll := Died; }
      }
    }

    /** `finish` and the last checks of the sources. */
    method Finish(before: Report, calm: bool, ghost d: string) returns (r: Report, poll: Poll)
      requires Valid() && Sound(before) && Keeps(d) && About(before, d) && Known() && AcceptedInLog(before)
      modifies this`stored, this`image, this`seen
      ensures Valid() && (poll != Died ==> Sound(r)) && Known() && poll != Undecided
      ensures old(seen) <= seen <= old(seen) + {image}
      ensures Keeps(d) && About(r, d)
      ensures SameRun(before, r.(passed := before.passed)) && r.request == before.request && AcceptedInLog(r)
      ensures if poll == Done then r.passed && Genuine(tools, seen, uploads[0], image) else r.passed == before.passed
      ensures calm && Expected(before) == Some(tools.digest(old(image))) ==> poll == Done
    {
      r := before;
      if Expected(r) != Some(tools.digest(image)) { return r, Failed; }
      r, poll := Ticket(r, 12, calm, d);
    }

    /** The handler of `run`, and the report it leaves. */
    method Conclude(before: Report, poll: Poll, calm: bool, ghost d: string) returns (outcome: Outcome)
      requires Valid() && Sound(before) && Keeps(d) && About(before, d) && poll != Died
      requires (poll == Done <==> before.passed) && (poll == Undecided ==> Waiting(before) && before.pending)
      modifies this`stored
      ensures Valid() && Keeps(d)
      ensures outcome == Passed ==> poll == Done && stored == Intact(before)
      ensures calm && poll == Done ==> outcome == Passed
      ensures outcome in {Pending, Refused} ==>
        && stored.Intact? && !stored.report.passed && SameRun(before, stored.report.(passed := before.passed))
        && stored.report.request == before.request
        && (outcome == Pending ==> Waiting(before))
        && (Waiting(before) && before.request.value.status == InProgress ==> stored.report.pending)
    {
      var r := before;
      var changed := Trouble(calm);
      if poll == Failed || changed {
        r := r.(passed := false,
                pending := r.request.Some? && r.request.value.id.Some? && r.request.value.status == InProgress);
      }
      var alive := Save(r, calm);
      outcome := if !alive then Killed else if r.passed then Passed else if r.pending then Pending else Refused;
    }

    /** `run`. A resumed run continues the retained layout of an earlier one. `left` says
        that the signing context was left again, or that it was never entered. */
    method Workflow(resume: bool, owner: string, polls: nat, calm: bool) returns (outcome: Outcome, left: bool)
      requires Valid()
      modifies this
      ensures Valid()
      ensures uploads == old(uploads) || (!resume && old(stored).Missing? && uploads == [old(image)])
      ensures old(seen) <= seen <= old(seen) + {old(image), image}
      ensures image == old(image) || Known()
      ensures outcome == Passed ==>
        && stored.Intact? && stored.report.passed && AcceptedInLog(stored.report)
        && uploads != [] && Genuine(tools, seen, uploads[0], image)
      ensures calm && old(Runnable(resume, owner)) ==> outcome == Passed
      ensures resume && !(old(stored).Intact? && MayGoOn(old(stored).report, owner)) ==> outcome == Refused && Same()
      ensures calm && resume && old(stored).Intact? && MayGoOn(old(stored).report, owner)
        && tools.digest(old(image)) == (if old(stored).report.stapled.Some? then old(stored).report.stapled.value
                                        else old(stored).report.request.value.sha)
        ==> outcome == Passed
      ensures calm && !resume && old(stored).Missing? ==> outcome == Passed
      ensures outcome == Pending ==> Awaiting()
      ensures outcome in {Pending, Refused} && old(Admitted(resume, owner)) && Awaiting() ==>
        (Resumable(owner) <==> left)
      ensures tools.digest(image) != tools.digest(old(image)) ==>
        (Runnable(true, owner) <==> Resumable(owner) && StapleRecorded())
      ensures resume && old(stored).Intact? && Expected(old(stored).report) != Some(tools.digest(old(image))) ==>
        outcome != Passed && image == old(image)
      ensures !old(Admitted(resume, owner)) ==> outcome == Refused && Same()
    {
      if !Admitted(resume, owner) { return Refused, true; }
      var r := if resume then stored.report.(pending := false) else Report(owner, 0, None, None, false, false, false);
      Look(r);
      ghost var d := if resume && r.stapled.None? then r.request.value.sha else tools.digest(image);
      var poll;
      r, poll, left := Sign(resume, r, polls, calm, d);
      if poll == Done { r, poll := Finish(r, calm, d); }
      if poll == Died { return Killed, left; }
      outcome := Conclude(r, poll, calm, d);
    }

    /** Nothing durable has changed. */
    twostate predicate Same() reads this {
      && image == old(image) && stored == old(stored) && attempts == old(attempts)
      && uploads == old(uploads) && logs == old(logs)
    }
  }

  datatype Step = Complete(polls: nat, calm: bool) | Edit(image: seq<byte>)

  /** Any sequence of `complete_dmg_ticket` runs, each cut off anywhere, between which the
      image may be edited: Apple receives at most one image, none once the report has
      recorded one, and a run that cannot start changes nothing ever after unless the
      image is edited. */
  method Tickets(d: Directory, owner: string, steps: seq<Step>) returns (passed: bool)
    requires d.Valid()
    modifies d
    ensures d.Valid() && |d.uploads| <= 1 && old(d.uploads) <= d.uploads
    ensures old(d.Recorded()) ==> d.uploads == old(d.uploads)
    ensures passed ==>
      && d.stored.Intact? && d.AcceptedInLog(d.stored.report) && Genuine(d.tools, d.seen, d.uploads[0], d.image)
      && d.stored.report.request.value.sha == d.tools.digest(d.uploads[0])
    ensures !old(d.Startable(owner)) && (forall i | 0 <= i < |steps| :: steps[i].Complete?) ==> d.Same() && !passed
  {
    passed := false;
    for i := 0 to |steps|
      invariant d.Valid() && old(d.uploads) <= d.uploads
      invariant old(d.Recorded()) ==> d.uploads == old(d.uploads) && d.Recorded()
      invariant passed ==>
        && d.stored.Intact? && d.stored.report.passed && d.AcceptedInLog(d.stored.report)
        && d.uploads != [] && Genuine(d.tools, d.seen, d.uploads[0], d.image)
      invariant !old(d.Startable(owner)) && (forall j | 0 <= j < i :: steps[j].Complete?) ==> d.Same() && !passed
    {
      match steps[i] {
        case Complete(polls, calm) =>
          var outcome := d.CompleteTicket(owner, polls, calm);
          passed := outcome == Passed;
        case Edit(image) =>
          d.image := image;
          passed := false;
      }
    }
  }

  datatype Turn = Resume(polls: nat, calm: bool) | Change(image: seq<byte>)

  /** One initial `run` in a new directory and any sequence of resumed ones, each cut off
      anywhere, between which the image may be changed: one upload at most, of the initial
      image, and a pass means that Apple's log accepts the initial image and that nothing
      but tickets was added to it. */
  method Chain(d: Directory, owner: string, polls: nat, turns: seq<Turn>) returns (outcome: Outcome)
    requires d.Valid() && d.stored.Missing?
    modifies d
    ensures d.Valid() && (d.uploads == [] || d.uploads == [old(d.image)])
    ensures (forall i | 0 <= i < |turns| :: turns[i].Resume?) ==>
      d.image == old(d.image) || Genuine(d.tools, d.seen, old(d.image), d.image)
    ensures outcome == Passed ==>
      && d.stored.Intact? && d.AcceptedInLog(d.stored.report) && Genuine(d.tools, d.seen, old(d.image), d.image)
      && d.stored.report.request.value.sha == d.tools.digest(old(d.image))
  {
    var left: bool;
    outcome, left := d.Workflow(false, owner, polls, false);
    for i := 0 to |turns|
      invariant d.Valid() && (d.uploads == [] || d.uploads == [old(d.image)])
      invariant (forall j | 0 <= j < i :: turns[j].Resume?) ==>
        d.image == old(d.image) || Genuine(d.tools, d.seen, old(d.image), d.image)
      invariant outcome == Passed ==>
        && d.stored.Intact? && d.stored.report.passed && d.AcceptedInLog(d.stored.report)
        && d.uploads != [] && Genuine(d.tools, d.seen, d.uploads[0], d.image)
    {
      match turns[i] {
        case Resume(more, calm) =>
          ghost var seen, genuine := d.seen, Genuine(d.tools, d.seen, old(d.image), d.image);
          ghost var image := d.image;
          outcome, left := d.Workflow(true, owner, more, calm);
          if genuine { GenuineStays(d.tools, seen, d.seen, old(d.image), image); }
        case Change(image) =>
          d.image := image;
          outcome := Refused;
      }
    }
  }

  /** What polling may change: the status, and what it counts. */
  predicate Polled(before: Report, after: Report) {
    && SameRun(before, after) && after.stapled == before.stapled
    && after.request.Some? == before.request.Some?
    && (after.request.Some? ==>
         after.request.value.sha == before.request.value.sha && after.request.value.id == before.request.value.id)
  }
}
