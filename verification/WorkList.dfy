/** A termination measure for loops driven by an explicit stack whose entries spawn
    deeper entries: an entry at depth k with r children left owes r + 1 units of a weight
    that outgrows anything one child can add. */
module WorkList {
  function Weight(width: nat, level: nat): (w: nat)
    ensures w >= 1
  {
    if level == 0 then 1 else (width + 2) * Weight(width, level - 1)
  }

  function Work(width: nat, height: nat, remaining: seq<nat>): nat
    requires |remaining| <= height + 1
    decreases |remaining|
  {
    if remaining == [] then 0
    else Work(width, height, remaining[..|remaining| - 1])
         + (remaining[|remaining| - 1] + 1) * Weight(width, height + 1 - |remaining|)
  }

  lemma WorkOfStep(width: nat, height: nat, remaining: seq<nat>, r: nat)
    requires 0 < |remaining| <= height + 1 && remaining[|remaining| - 1] == r + 1
    ensures Work(width, height, remaining[|remaining| - 1 := r])
            == Work(width, height, remaining) - Weight(width, height + 1 - |remaining|)
  {
    var stepped := remaining[|remaining| - 1 := r];
    var w := Weight(width, height + 1 - |remaining|);
    assert stepped[..|remaining| - 1] == remaining[..|remaining| - 1];
    assert (r + 2) * w == (r + 1) * w + w;
  }

  lemma WorkOfPush(width: nat, height: nat, remaining: seq<nat>, r: nat, added: nat)
    requires 0 < |remaining| <= height && remaining[|remaining| - 1] == r + 1 && added <= width
    ensures Work(width, height, remaining[|remaining| - 1 := r] + [added]) < Work(width, height, remaining)
  {
    var stepped := remaining[|remaining| - 1 := r];
    var below := Weight(width, height - |remaining|);
    WorkOfStep(width, height, remaining, r);
    assert (stepped + [added])[..|remaining|] == stepped;
    ChildFits(width, added, below);
  }

  lemma ChildFits(width: nat, added: nat, below: nat)
    requires added <= width && below >= 1
    ensures (added + 1) * below < (width + 2) * below
  {
  }
}
