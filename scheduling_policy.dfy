/**
 * The scheduling-policy view: a text label that, on every tick, shows the
 * name of the scheduling policy stored at exactly the published
 * timestamp, "N/A" when there is none, or "Error" when the stored code
 * is not a known policy.
 */
module SchedulingPolicy {
  import opened Common
  import opened PyDict
  import opened GetData

  /**
   * The text `update` shows: `map_scheduling_policy` of
   * `data.get(current_timestamp, "")`, with `None` shown as "N/A" and the
   * `KeyError` it may raise caught and shown as "Error".
   */
  function PolicyText(data: Dict<int, Value>, t: int): (r: string)
    ensures r == "N/A" <==> Get(data, t).GetOr(Text("")) == Text("")
    ensures r == "Error" <==> Get(data, t).GetOr(Text("")) != Text("") && PolicyKey(Get(data, t).value).None?
    ensures r != "N/A" && r != "Error" ==> r in SchedulingPolicyNames
  {
    match MapSchedulingPolicy(Get(data, t).GetOr(Text("")))
    case Raised(_) => "Error"
    case Ok(None) => "N/A"
    case Ok(Some(name)) => name
  }

  /** No entry at the timestamp shows "N/A": there is no nearest-key fallback. */
  lemma {:induction false} PolicyMissing(data: Dict<int, Value>, t: int)
    requires forall j :: 0 <= j < |data| ==> data[j].0 != t
    ensures PolicyText(data, t) == "N/A"
  {
    assert t !in Keys(data) by {
      forall j | 0 <= j < |data| ensures Keys(data)[j] != t {
      }
    }
  }

  /** A stored policy code 0, 1 or 2, integer or float, shows its policy's name. */
  lemma {:induction false} PolicyStored(data: Dict<int, Value>, i: nat, k: nat)
    requires UniqueKeys(data) && i < |data| && PolicyKey(data[i].1) == Some(k)
    ensures PolicyText(data, data[i].0) == SchedulingPolicyNames[k]
  {
    GetAt(data, i);
    assert data[i].1 != Text("");
    assert MapSchedulingPolicy(data[i].1) == Ok(Some(SchedulingPolicyNames[k]));
  }

  /** The label always shows one of the three names, "N/A" or "Error". */
  lemma {:induction false} PolicyTextRange(data: Dict<int, Value>, t: int)
    ensures PolicyText(data, t) in ["Round Robin", "Water Filling", "Proportionally Fair", "N/A", "Error"]
  {
    var r := PolicyText(data, t);
    if r != "N/A" && r != "Error" {
      assert r in SchedulingPolicyNames;
    }
  }

  /** One document's label, reading the database's policy codes and timestamp. */
  class SchedulingPolicyView {
    const db: Database
    const data: Dict<int, Value>
    var text: string

    /** `scheduling_policy(doc)`: an empty label over the loaded policy codes. */
    constructor (db: Database)
      ensures this.db == db && data == db.schedulingPolicy && text == ""
    {
      this.db := db;
      data := db.schedulingPolicy;
      text := "";
    }

    /** `update`: the label shows `PolicyText` at the published timestamp; nothing else changes. */
    method Update()
      modifies this`text
      ensures text == PolicyText(data, db.currentTimestamp)
    {
      var policy := MapSchedulingPolicy(Get(data, db.currentTimestamp).GetOr(Text("")));
      if policy.Raised? {
        text := "Error";
      } else if policy.value.None? {
        text := "N/A";
      } else {
        text := policy.value.value;
      }
    }
  }
}
