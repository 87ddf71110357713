/** The full job view merges the steps of the summary with the persisted step rows, by name and in order. */
module StepMerge {
  import opened LogStore

  /** A step as a JSON object: its name and its other keys; a value may be null. */
  datatype StepItem = StepItem(name: string, fields: map<string, Option<string>>)

  const COPIED: set<string> := {"started_at", "finished_at", "log_start_offset", "log_end_offset"}
  const FILLED: set<string> := {"status", "exit_code", "duration_seconds"}

  function Get(s: StepItem, key: string): Option<string> { if key in s.fields then s.fields[key] else None }

  /** The persisted row decides times and offsets, and fills what the summary leaves open. */
  function Combined(item: StepItem, row: StepItem): StepItem {
    item.(fields := map k | k in item.fields.Keys + (row.fields.Keys * (COPIED + FILLED)) ::
                      if k in row.fields && (k in COPIED || (k in FILLED && Get(item, k).None?)) then row.fields[k]
                      else if k in item.fields then item.fields[k] else None)
  }

  /** The indices below k of the steps with this name, in order. */
  function Named(steps: seq<StepItem>, name: string, k: nat): (r: seq<nat>)
    requires k <= |steps|
    ensures forall j :: 0 <= j < |r| ==> r[j] < k && steps[r[j]].name == name
  {
    if k == 0 then []
    else if steps[k - 1].name == name then Named(steps, name, k - 1) + [k - 1]
    else Named(steps, name, k - 1)
  }

  /** How many of the first k steps have this name: the occurrence number of step k. */
  function Occurrence(steps: seq<StepItem>, name: string, k: nat): nat
    requires k <= |steps|
  {
    |Named(steps, name, k)|
  }

  /** The row merged into summary step i: the one with the same name and the same occurrence number. */
  function Partner(logical: seq<StepItem>, persisted: seq<StepItem>, i: nat): (p: Option<nat>)
    requires i < |logical|
    ensures p.Some? ==> p.value < |persisted| && persisted[p.value].name == logical[i].name
  {
    var rows, o := Named(persisted, logical[i].name, |persisted|), Occurrence(logical, logical[i].name, i);
    if o < |rows| then Some(rows[o]) else None
  }

  function MergedAt(logical: seq<StepItem>, persisted: seq<StepItem>, i: nat): StepItem
    requires i < |logical|
  {
    var p := Partner(logical, persisted, i);
    if p.Some? then Combined(logical[i], persisted[p.value]) else logical[i]
  }

  /** A row is left over when its name occurs no oftener in the summary than among the rows before it. */
  predicate LeftOver(logical: seq<StepItem>, persisted: seq<StepItem>, p: nat)
    requires p < |persisted|
  {
    Occurrence(logical, persisted[p].name, |logical|) <= Occurrence(persisted, persisted[p].name, p)
  }

  function LeftOvers(logical: seq<StepItem>, persisted: seq<StepItem>, k: nat): seq<StepItem>
    requires k <= |persisted|
  {
    if k == 0 then []
    else LeftOvers(logical, persisted, k - 1) + if LeftOver(logical, persisted, k - 1) then [persisted[k - 1]] else []
  }

  function HeadMerged(logical: seq<StepItem>, persisted: seq<StepItem>, k: nat): seq<StepItem>
    requires k <= |logical|
  {
    seq(k, i requires 0 <= i < k => MergedAt(logical, persisted, i))
  }

  lemma {:induction false} NamedGrows(steps: seq<StepItem>, name: string, j: nat, k: nat)
    requires j <= k <= |steps|
    ensures Named(steps, name, j) <= Named(steps, name, k)
    decreases k
  {
    if j < k { NamedGrows(steps, name, j, k - 1); }
  }

  /** A step stands in the list of its name at its own occurrence number. */
  lemma OwnPlace(steps: seq<StepItem>, p: nat)
    requires p < |steps|
    ensures var all, o := Named(steps, steps[p].name, |steps|), Occurrence(steps, steps[p].name, p);
            o < |all| && all[o] == p
  {
    NamedGrows(steps, steps[p].name, p + 1, |steps|);
  }

  lemma {:induction false} NamedIncreases(steps: seq<StepItem>, name: string, k: nat, a: nat, b: nat)
    requires k <= |steps| && a < b < |Named(steps, name, k)|
    ensures Named(steps, name, k)[a] < Named(steps, name, k)[b]
  {
    if b < |Named(steps, name, k - 1)| { NamedIncreases(steps, name, k - 1, a, b); }
  }

  /** Row p is merged into summary step i exactly when names and occurrence numbers agree. */
  lemma PartnerIff(logical: seq<StepItem>, persisted: seq<StepItem>, i: nat, p: nat)
    requires i < |logical| && p < |persisted|
    ensures Partner(logical, persisted, i) == Some(p)
       <==> (&& logical[i].name == persisted[p].name
             && Occurrence(logical, logical[i].name, i) == Occurrence(persisted, persisted[p].name, p))
  {
    var name := logical[i].name;
    var all, o := Named(persisted, name, |persisted|), Occurrence(logical, name, i);
    if persisted[p].name == name {
      OwnPlace(persisted, p);
      var own := Occurrence(persisted, name, p);
      if o < |all| && o < own { NamedIncreases(persisted, name, |persisted|, o, own); }
      if o < |all| && own < o { NamedIncreases(persisted, name, |persisted|, own, o); }
    }
  }

  /** The step in place o of the list of its name has occurrence number o. */
  lemma PlaceIsOccurrence(steps: seq<StepItem>, name: string, o: nat)
    requires o < |Named(steps, name, |steps|)|
    ensures Occurrence(steps, name, Named(steps, name, |steps|)[o]) == o
  {
    var all := Named(steps, name, |steps|);
    OwnPlace(steps, all[o]);
    var own := Occurrence(steps, name, all[o]);
    if o < own { NamedIncreases(steps, name, |steps|, o, own); }
    if own < o { NamedIncreases(steps, name, |steps|, own, o); }
  }

  lemma OccurrenceGrows(steps: seq<StepItem>, i: nat, j: nat)
    requires i < j <= |steps|
    ensures Occurrence(steps, steps[i].name, i) < Occurrence(steps, steps[i].name, j)
  {
    NamedGrows(steps, steps[i].name, i + 1, j);
  }

  /**
   No row is lost and none is used twice: every persisted row is either merged into exactly one summary
   step of its name or left over, and the two cases exclude each other.
   */
  lemma EachRowOnce(logical: seq<StepItem>, persisted: seq<StepItem>, p: nat)
    requires p < |persisted|
    ensures LeftOver(logical, persisted, p) <==> forall i :: 0 <= i < |logical| ==> Partner(logical, persisted, i) != Some(p)
    ensures forall i, j :: 0 <= i < j < |logical| && Partner(logical, persisted, i) == Some(p) ==> Partner(logical, persisted, j) != Some(p)
  {
    hide Partner;
    var name, own := persisted[p].name, Occurrence(persisted, persisted[p].name, p);
    forall i | 0 <= i < |logical|
      ensures Partner(logical, persisted, i) == Some(p) <==> logical[i].name == name && Occurrence(logical, name, i) == own
      ensures logical[i].name == name ==> Occurrence(logical, name, i) < Occurrence(logical, name, |logical|)
    {
      PartnerIff(logical, persisted, i, p);
      OccurrenceGrows(logical, i, |logical|);
    }
    if own < Occurrence(logical, name, |logical|) {
      PlaceIsOccurrence(logical, name, own);
      var i := Named(logical, name, |logical|)[own];
      assert Partner(logical, persisted, i) == Some(p);
    }
    hide Occurrence, Named;
    forall i, j | 0 <= i < j < |logical| && Partner(logical, persisted, i) == Some(p)
      ensures Partner(logical, persisted, j) != Some(p)
    {
      OccurrenceGrows(logical, i, j);
    }
  }

  /**
   What a merged step holds, key by key: the row's times and log offsets; the row's status, exit code and
   duration where the summary has none; and otherwise the summary's own values.
   */
  ghost predicate TakesOver(merged: StepItem, item: StepItem, row: StepItem) {
    merged.name == item.name && forall key :: TakesKey(merged.fields, item.fields, row.fields, key)
  }

  predicate TakesKey(merged: map<string, Option<string>>, item: map<string, Option<string>>, row: map<string, Option<string>>,
                     key: string)
  {
    if key in row && IsTime(key) then key in merged && merged[key] == row[key]
    else if key in row && IsOutcome(key) && (key in item ==> item[key] == None) then key in merged && merged[key] == row[key]
    else if key in item then key in merged && merged[key] == item[key]
    else key !in merged
  }

  predicate IsTime(key: string) {
    key == "started_at" || key == "finished_at" || key == "log_start_offset" || key == "log_end_offset"
  }

  predicate IsOutcome(key: string) { key == "status" || key == "exit_code" || key == "duration_seconds" }

  lemma CombinedTakesOver(item: StepItem, row: StepItem)
    ensures TakesOver(Combined(item, row), item, row)
  {
    forall key ensures key in COPIED <==> IsTime(key) {}
    forall key ensures key in FILLED <==> IsOutcome(key) {}
    hide IsTime, IsOutcome;
    forall key ensures TakesKey(Combined(item, row).fields, item.fields, row.fields, key) {}
  }

  lemma HeadTakesOver(logical: seq<StepItem>, persisted: seq<StepItem>)
    ensures |HeadMerged(logical, persisted, |logical|)| == |logical|
    ensures forall i :: 0 <= i < |logical| ==>
              var p := Partner(logical, persisted, i);
              HeadMerged(logical, persisted, |logical|)[i].name == logical[i].name
              && if p.Some? then TakesOver(HeadMerged(logical, persisted, |logical|)[i], logical[i], persisted[p.value])
                 else HeadMerged(logical, persisted, |logical|)[i] == logical[i]
  {
    hide Partner, TakesOver;
    forall item, row ensures TakesOver(Combined(item, row), item, row) { CombinedTakesOver(item, row); }
  }

  /** The rows left over follow in their own order, each once. */
  lemma {:induction false} LeftOversInOrder(logical: seq<StepItem>, persisted: seq<StepItem>, k: nat) returns (rows: seq<nat>)
    requires k <= |persisted|
    ensures |rows| == |LeftOvers(logical, persisted, k)|
    ensures forall j :: 0 <= j < |rows| ==> rows[j] < k && LeftOvers(logical, persisted, k)[j] == persisted[rows[j]]
    ensures forall i, j :: 0 <= i < j < |rows| ==> rows[i] < rows[j]
    ensures forall p :: 0 <= p < k ==> (p in rows <==> LeftOver(logical, persisted, p))
  {
    hide LeftOver;
    if k == 0 {
      rows := [];
    } else {
      rows := LeftOversInOrder(logical, persisted, k - 1);
      if LeftOver(logical, persisted, k - 1) { rows := rows + [k - 1]; }
    }
  }

  /** The queue of a name after k summary steps: its rows less those already merged. */
  ghost predicate QueuesAt(queues: map<string, seq<nat>>, logical: seq<StepItem>, persisted: seq<StepItem>, k: nat)
    requires k <= |logical|
  {
    forall name {:trigger Named(persisted, name, |persisted|)} ::
      (if name in queues then queues[name] else []) == Rest(Named(persisted, name, |persisted|), Occurrence(logical, name, k))
  }

  function Rest(s: seq<nat>, n: nat): seq<nat> { if n <= |s| then s[n..] else [] }

  ghost predicate ConsumedAt(consumed: set<nat>, logical: seq<StepItem>, persisted: seq<StepItem>, k: nat)
    requires k <= |logical|
  {
    forall p: nat :: p in consumed <==> p < |persisted| && Occurrence(persisted, persisted[p].name, p) < Occurrence(logical, persisted[p].name, k)
  }

  /** _merge_private_ci_full_steps. */
  method MergeFullSteps(logical: seq<StepItem>, persisted: seq<StepItem>) returns (merged: seq<StepItem>)
    ensures merged == HeadMerged(logical, persisted, |logical|) + LeftOvers(logical, persisted, |persisted|)
    // every summary step stays in its place, as it was or completed from its row
    ensures |logical| <= |merged|
    ensures forall i :: 0 <= i < |logical| ==>
              var p := Partner(logical, persisted, i);
              if p.Some? then TakesOver(merged[i], logical[i], persisted[p.value]) else merged[i] == logical[i]
  {
    hide TakesOver, QueuesAt, ConsumedAt, Named, Combined, HeadMerged, LeftOver, Partner, Occurrence;
    HeadStep(logical, persisted, 0);
    var queues := QueueByName(persisted);
    StartQueues(queues, logical, persisted);
    merged := [];
    var consumed: set<nat> := {};
    for k := 0 to |logical|
      invariant QueuesAt(queues, logical, persisted, k) && ConsumedAt(consumed, logical, persisted, k)
      invariant merged == HeadMerged(logical, persisted, k)
    {
      var item := logical[k];
      var candidates := if item.name in queues then queues[item.name] else [];
      TakeNext(queues, consumed, logical, persisted, k);
      HeadStep(logical, persisted, k);
      if candidates != [] {
        var p := candidates[0];
        queues := queues[item.name := candidates[1..]];
        consumed := consumed + {p};
        merged := merged + [Combined(item, persisted[p])];
      } else {
        merged := merged + [item];
      }
    }
    for k := 0 to |persisted|
      invariant merged == HeadMerged(logical, persisted, |logical|) + LeftOvers(logical, persisted, k)
    {
      ConsumedIsNotLeft(consumed, logical, persisted, k);
      if k !in consumed { merged := merged + [persisted[k]]; }
    }
    HeadTakesOver(logical, persisted);
  }

  method QueueByName(persisted: seq<StepItem>) returns (queues: map<string, seq<nat>>)
    ensures forall name :: (if name in queues then queues[name] else []) == Named(persisted, name, |persisted|)
  {
    queues := map[];
    for k := 0 to |persisted|
      invariant forall name :: (if name in queues then queues[name] else []) == Named(persisted, name, k)
    {
      var name := persisted[k].name;
      queues := queues[name := (if name in queues then queues[name] else []) + [k]];
    }
  }

  lemma HeadStep(logical: seq<StepItem>, persisted: seq<StepItem>, k: nat)
    requires k <= |logical|
    ensures HeadMerged(logical, persisted, 0) == []
    ensures k < |logical| ==> HeadMerged(logical, persisted, k + 1) == HeadMerged(logical, persisted, k) + [MergedAt(logical, persisted, k)]
  {
  }

  lemma StartQueues(queues: map<string, seq<nat>>, logical: seq<StepItem>, persisted: seq<StepItem>)
    requires forall name :: (if name in queues then queues[name] else []) == Named(persisted, name, |persisted|)
    ensures QueuesAt(queues, logical, persisted, 0) && ConsumedAt({}, logical, persisted, 0)
  {
  }

  lemma ConsumedIsNotLeft(consumed: set<nat>, logical: seq<StepItem>, persisted: seq<StepItem>, p: nat)
    requires p < |persisted| && ConsumedAt(consumed, logical, persisted, |logical|)
    ensures p in consumed <==> !LeftOver(logical, persisted, p)
  {
  }

  lemma OccurrenceStep(steps: seq<StepItem>, name: string, k: nat)
    requires k < |steps|
    ensures Occurrence(steps, name, k + 1) == Occurrence(steps, name, k) + if steps[k].name == name then 1 else 0
  {
  }

  /** One summary step takes the head of its queue, which is its partner, or finds the queue empty. */
  lemma TakeNext(queues: map<string, seq<nat>>, consumed: set<nat>, logical: seq<StepItem>, persisted: seq<StepItem>, k: nat)
    requires k < |logical| && QueuesAt(queues, logical, persisted, k) && ConsumedAt(consumed, logical, persisted, k)
    ensures var name := logical[k].name;
            var candidates := if name in queues then queues[name] else [];
            && Partner(logical, persisted, k) == (if candidates != [] then Some(candidates[0]) else None)
            && QueuesAt(if candidates != [] then queues[name := candidates[1..]] else queues, logical, persisted, k + 1)
            && ConsumedAt(if candidates != [] then consumed + {candidates[0]} else consumed, logical, persisted, k + 1)
  {
    hide Named;
    QueueTaken(queues, logical, persisted, k);
    var all, o := Named(persisted, logical[k].name, |persisted|), Occurrence(logical, logical[k].name, k);
    var candidates := if logical[k].name in queues then queues[logical[k].name] else [];
    assert candidates == Rest(all, o);
    hide QueuesAt;
    ConsumedTaken(consumed, logical, persisted, k);
  }

  lemma ConsumedTaken(consumed: set<nat>, logical: seq<StepItem>, persisted: seq<StepItem>, k: nat)
    requires k < |logical| && ConsumedAt(consumed, logical, persisted, k)
    ensures var p := Partner(logical, persisted, k);
            ConsumedAt(if p.Some? then consumed + {p.value} else consumed, logical, persisted, k + 1)
  {
    hide Named, Occurrence;
    var name, o := logical[k].name, Occurrence(logical, logical[k].name, k);
    var all := Named(persisted, name, |persisted|);
    assert Partner(logical, persisted, k).Some? <==> o < |all|;
    hide Partner;
    forall p: nat | p < |persisted|
      ensures persisted[p].name == name ==> (Occurrence(persisted, name, p) == o <==> Partner(logical, persisted, k) == Some(p))
      ensures persisted[p].name == name ==> Occurrence(persisted, name, p) < |all|
      ensures Occurrence(logical, persisted[p].name, k + 1)
           == Occurrence(logical, persisted[p].name, k) + if persisted[p].name == name then 1 else 0
    {
      PartnerIff(logical, persisted, k, p);
      if persisted[p].name == name { OwnPlace(persisted, p); }
      OccurrenceStep(logical, persisted[p].name, k);
    }
  }

  lemma QueueTaken(queues: map<string, seq<nat>>, logical: seq<StepItem>, persisted: seq<StepItem>, k: nat)
    requires k < |logical| && QueuesAt(queues, logical, persisted, k)
    ensures var name := logical[k].name;
            var candidates := if name in queues then queues[name] else [];
            QueuesAt(if candidates != [] then queues[name := candidates[1..]] else queues, logical, persisted, k + 1)
  {
    hide Named, Occurrence;
    forall name ensures Occurrence(logical, name, k + 1) == Occurrence(logical, name, k) + if logical[k].name == name then 1 else 0 {
      OccurrenceStep(logical, name, k);
    }
  }
}
