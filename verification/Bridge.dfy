/**
 The command bridge of scripts/mobile_ios_ui.py between test callers and a polling runner:
 a queue of commands, a table of results and a condition variable. Each method is one
 step that the lock or the queue makes atomic; threads interleave them in any order.
 */
module Bridge {
  import opened Common

  type Id = string

  datatype Command = Command(id: Id, op: string, values: string)

  /** A posted result, checked for its form; `value` is None for an absent field. */
  datatype Result = Result(id: Id, passed: bool, value: Option<string>)

  /** What a caller sees: the value, a failed observation, the deadline, or still waiting. */
  datatype Answer = Value(value: Option<string>) | ObservationFailed | Expired | Waiting

  function AnswerOf(r: Result): Answer { if r.passed then Value(r.value) else ObservationFailed }

  function Ids(commands: seq<Command>): set<Id> { set i | 0 <= i < |commands| :: commands[i].id }

  ghost predicate Distinct(commands: seq<Command>) {
    forall i, j | 0 <= i < j < |commands| :: commands[i].id != commands[j].id
  }

  /** Every call is in the table or answered, and in the table it is waiting or expired. */
  ghost predicate Consistent(ids: set<Id>, results: map<Id, Option<Result>>, accepted: map<Id, Result>,
                             answered: map<Id, Answer>, waiting: set<Id>, late: set<Id>)
  {
    && results.Keys + answered.Keys == ids && results.Keys !! answered.Keys
    && accepted.Keys <= ids && waiting !! late && waiting + late == results.Keys
    && (forall id | id in results :: results[id] == if id in accepted then Some(accepted[id]) else None)
    && (forall id | id in accepted :: accepted[id].id == id)
    && (forall id | id in answered :: id in accepted && answered[id] == AnswerOf(accepted[id]))
  }

  lemma ConsistentCall(ids: set<Id>, results: map<Id, Option<Result>>, accepted: map<Id, Result>,
                       answered: map<Id, Answer>, waiting: set<Id>, late: set<Id>, id: Id)
    requires Consistent(ids, results, accepted, answered, waiting, late) && id !in ids
    ensures Consistent(ids + {id}, results[id := None], accepted, answered, waiting + {id}, late)
  {
    assert (results[id := None]).Keys == results.Keys + {id};
  }

  lemma ConsistentAnswer(ids: set<Id>, results: map<Id, Option<Result>>, accepted: map<Id, Result>,
                         answered: map<Id, Answer>, waiting: set<Id>, late: set<Id>, id: Id)
    requires Consistent(ids, results, accepted, answered, waiting, late) && id in waiting && id in accepted
    ensures id !in answered
    ensures Consistent(ids, results - {id}, accepted, answered[id := AnswerOf(accepted[id])], waiting - {id}, late)
  {
    assert (results - {id}).Keys == results.Keys - {id};
    assert (answered[id := AnswerOf(accepted[id])]).Keys == answered.Keys + {id};
  }

  lemma ConsistentPost(ids: set<Id>, results: map<Id, Option<Result>>, accepted: map<Id, Result>,
                       answered: map<Id, Answer>, waiting: set<Id>, late: set<Id>, r: Result)
    requires Consistent(ids, results, accepted, answered, waiting, late) && r.id in results && r.id !in accepted
    ensures Consistent(ids, results[r.id := Some(r)], accepted[r.id := r], answered, waiting, late)
  {
    assert (results[r.id := Some(r)]).Keys == results.Keys;
  }

  class Bridge {
    var commands: seq<Command>
    var results: map<Id, Option<Result>>
    var polls: nat

    /** The identifiers of the threads that are inside `call`. */
    var waiting: set<Id>

    /** Commands in the order of their calls and of their delivery to the runner, the
        result accepted for each, and how each call ended. */
    ghost var issued: seq<Command>
    ghost var taken: seq<Command>
    ghost var accepted: map<Id, Result>
    ghost var answered: map<Id, Answer>
    ghost var late: set<Id>

    /** The runner has taken the first commands and the queue holds the others; a table
        entry is a call without an answer or one that expired, and holds the one result
        accepted for it, if any. */
    ghost predicate Valid() reads this {
      && issued == taken + commands && Distinct(issued)
      && Consistent(Ids(issued), results, accepted, answered, waiting, late)
    }

    /** What no later step takes back. */
    twostate predicate Kept() reads this {
      && old(issued) <= issued && old(taken) <= taken && old(late) <= late
      && (forall id | id in old(accepted) :: id in accepted && accepted[id] == old(accepted)[id])
      && (forall id | id in old(answered) :: id in answered && answered[id] == old(answered)[id])
    }

    constructor ()
      ensures Valid() && issued == [] && taken == []
    {
      commands, results, polls, waiting := [], map[], 0, {};
      issued, taken, accepted, answered, late := [], [], map[], map[], {};
    }

    /** The start of `call`, with a fresh identifier. */
    method Call(c: Command)
      requires Valid() && c.id !in Ids(issued)
      modifies this
      ensures Valid() && Kept() && issued == old(issued) + [c] && taken == old(taken) && accepted == old(accepted)
      ensures answered == old(answered) && late == old(late)
    {
      ConsistentCall(Ids(issued), results, accepted, answered, waiting, late, c.id);
      results := results[c.id := None];
      commands, waiting := commands + [c], waiting + {c.id};
      issued := issued + [c];
      IdsOfMore(old(issued), c);
      assert issued == taken + commands;
    }

    /** The `/next` request; None stands for idle. */
    method Next(empty: bool) returns (c: Option<Command>)
      requires Valid()
      modifies this
      ensures Valid() && Kept() && issued == old(issued) && polls == old(polls) + 1
      ensures accepted == old(accepted) && answered == old(answered) && results == old(results) && late == old(late)
      ensures c.None? ==> taken == old(taken)
      ensures c.Some? ==> |old(taken)| < |issued| && c.value == issued[|old(taken)|] && taken == old(taken) + [c.value]
      ensures !empty && old(commands) != [] ==> c.Some?
    {
      polls := polls + 1;
      if empty || commands == [] { return None; }
      c := Some(commands[0]);
      taken, commands := taken + [commands[0]], commands[1..];
      assert issued == taken + commands;
    }

    /** The `/result` request; false for an unknown or repeated result. */
    method Post(r: Result) returns (ok: bool)
      requires Valid()
      modifies this
      ensures Valid() && Kept() && issued == old(issued) && taken == old(taken) && answered == old(answered)
      ensures late == old(late)
      ensures ok <==> r.id in Ids(issued) && r.id !in old(accepted)
      ensures accepted == if ok then old(accepted)[r.id := r] else old(accepted)
      ensures !ok ==> results == old(results)
    {
      ok := r.id in results && results[r.id] == None;
      if ok {
        ConsistentPost(Ids(issued), results, accepted, answered, waiting, late, r);
        results := results[r.id := Some(r)];
        accepted := accepted[r.id := r];
      }
    }

    /** One turn of the waiting loop of `call`. */
    method Wake(id: Id, expired: bool) returns (answer: Answer)
      requires Valid() && id in waiting
      modifies this
      ensures Valid() && Kept() && issued == old(issued) && taken == old(taken) && accepted == old(accepted)
      ensures answer ==
        if id in accepted then
          if accepted[id].passed then Value(accepted[id].value) else ObservationFailed
        else if expired then Expired else Waiting
      ensures answered == if id in accepted then old(answered)[id := AnswerOf(accepted[id])] else old(answered)
      ensures late == if answer == Expired then old(late) + {id} else old(late)
    {
      if results[id] == None {
        if expired { waiting, late := waiting - {id}, late + {id}; }
        return if expired then Expired else Waiting;
      }
      ConsistentAnswer(Ids(issued), results, accepted, answered, waiting, late, id);
      var result := results[id].value;
      results, waiting := results - {id}, waiting - {id};
      answered := answered[id := AnswerOf(result)];
      answer := AnswerOf(result);
    }
  }

  lemma IdsOfMore(commands: seq<Command>, c: Command)
    ensures Ids(commands + [c]) == Ids(commands) + {c.id}
  {
    var more := commands + [c];
    forall id | id in Ids(commands) + {c.id} ensures id in Ids(more) {
      if id == c.id {
        assert more[|commands|].id == id;
      } else {
        var i :| 0 <= i < |commands| && commands[i].id == id;
        assert more[i].id == id;
      }
    }
  }

  datatype Step = DoCall(c: Command) | DoNext(empty: bool) | DoPost(r: Result) | DoWake(id: Id, expired: bool)

  /** Any interleaving of callers, pollers, posts and deadlines: the runner gets each
      command once, in the order of the calls; the first result posted for a call is the
      only one accepted; a call is answered once, with that result; and one that expired
      is never answered, whatever is posted for it. */
  method Run(b: Bridge, steps: seq<Step>)
    requires b.Valid() && FreshCalls(Ids(b.issued), steps)
    modifies b
    ensures b.Valid() && b.Kept()
    ensures b.taken <= b.issued && Distinct(b.taken)
    ensures forall id | id in b.answered ::
      && id in b.accepted && b.accepted[id].id == id
      && b.answered[id] == if b.accepted[id].passed then Value(b.accepted[id].value) else ObservationFailed
    ensures forall id | id in b.late :: id !in b.answered
  {
    for i := 0 to |steps|
      invariant b.Valid() && b.Kept()
      invariant FreshCalls(Ids(b.issued), steps[i..])
    {
      FreshRest(b.issued, steps[i..]);
      assert steps[i..][1..] == steps[i + 1..];
      match steps[i] {
        case DoCall(c) => b.Call(c);
        case DoNext(empty) => var c := b.Next(empty);
        case DoPost(r) => var ok := b.Post(r);
        case DoWake(id, expired) => if id in b.waiting { var answer := b.Wake(id, expired); }
      }
    }
  }

  /** Every call of the schedule has an identifier of its own. */
  ghost predicate FreshCalls(used: set<Id>, steps: seq<Step>) {
    && (forall i | 0 <= i < |steps| && steps[i].DoCall? :: steps[i].c.id !in used)
    && forall i, j | 0 <= i < j < |steps| && steps[i].DoCall? && steps[j].DoCall? :: steps[i].c.id != steps[j].c.id
  }

  lemma FreshRest(issued: seq<Command>, steps: seq<Step>)
    requires steps != [] && FreshCalls(Ids(issued), steps)
    ensures FreshCalls(Ids(if steps[0].DoCall? then issued + [steps[0].c] else issued), steps[1..])
  {
    if steps[0].DoCall? { IdsOfMore(issued, steps[0].c); }
    forall i | 0 <= i < |steps| - 1 && steps[1..][i].DoCall?
      ensures steps[1..][i] == steps[i + 1] && (steps[0].DoCall? ==> steps[i + 1].c.id != steps[0].c.id)
    {
    }
  }
}
