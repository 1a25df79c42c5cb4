/**
 A tool list sent back with its secrets masked keeps the ones it had.
 */
module ToolSecrets {
  import opened Options

  const MASK := "***"

  /** A tool's name, its `webhook_secret` if it has one, and all the rest of it. */
  datatype Tool = Tool(name: string, secret: Option<string>, rest: map<string, string>)

  predicate IsMasked(tool: Tool) {
    tool.secret == Some(MASK)
  }

  /** A secret worth keeping: there, not empty, not the mask. */
  predicate IsReal(tool: Tool) {
    tool.secret.Some? && tool.secret.value != "" && tool.secret.value != MASK
  }

  /** `s` is the secret a list holds for a name: its last tool of that name with a real one. */
  ghost predicate Holds(tools: seq<Tool>, name: string, s: string) {
    exists i :: 0 <= i < |tools| && Gives(tools[i], name) && tools[i].secret.value == s
                && forall j :: i < j < |tools| ==> !Gives(tools[j], name)
  }

  predicate Gives(tool: Tool, name: string) {
    tool.name == name && IsReal(tool)
  }

  predicate HoldsNone(tools: seq<Tool>, name: string) {
    forall tool :: tool in tools ==> !Gives(tool, name)
  }

  /** `s` is what the earlier lists hold for a name: what the first that holds any does. */
  ghost predicate FirstHolds(earlier: seq<seq<Tool>>, name: string, s: string) {
    exists k :: 0 <= k < |earlier| && Holds(earlier[k], name, s)
                && forall j :: 0 <= j < k ==> HoldsNone(earlier[j], name)
  }

  ghost predicate NoneHolds(earlier: seq<seq<Tool>>, name: string) {
    forall listed :: listed in earlier ==> HoldsNone(listed, name)
  }

  // ----- the two passes

  /** What is known covers the first `n` tools of a list over what was known before. */
  ghost predicate KnownAfter(known: map<string, string>, before: map<string, string>, tools: seq<Tool>) {
    forall name ::
      if HoldsNone(tools, name) then
        (name in known <==> name in before) && (name in before ==> known[name] == before[name])
      else name in known && Holds(tools, name, known[name])
  }

  lemma OneToolMore(known: map<string, string>, before: map<string, string>, tools: seq<Tool>, tool: Tool)
    requires KnownAfter(known, before, tools)
    ensures KnownAfter(if IsReal(tool) then known[tool.name := tool.secret.value] else known, before, tools + [tool])
  {
    var now := if IsReal(tool) then known[tool.name := tool.secret.value] else known;
    var all := tools + [tool];
    forall name ensures if HoldsNone(all, name) then
        (name in now <==> name in before) && (name in before ==> now[name] == before[name])
      else name in now && Holds(all, name, now[name])
    {
      if Gives(tool, name) {
        assert all[|tools|] == tool;
        assert all[|tools|] in all;
      } else if !HoldsNone(tools, name) {
        var i :| 0 <= i < |tools| && Gives(tools[i], name) && tools[i].secret.value == known[name]
                 && forall j :: i < j < |tools| ==> !Gives(tools[j], name);
        assert all[i] == tools[i] && all[i] in all;
      } else {
        assert HoldsNone(all, name);
      }
    }
  }

  /** One earlier list, over what the lists after it hold. */
  method Learn(before: map<string, string>, tools: seq<Tool>) returns (known: map<string, string>)
    ensures KnownAfter(known, before, tools)
  {
    known := before;
    for i := 0 to |tools|
      invariant KnownAfter(known, before, tools[..i])
    {
      OneToolMore(known, before, tools[..i], tools[i]);
      assert tools[..i + 1] == tools[..i] + [tools[i]];
      if IsReal(tools[i]) {
        known := known[tools[i].name := tools[i].secret.value];
      }
    }
    assert tools[..|tools|] == tools;
  }

  /** What is known is what these lists hold, for every name. */
  ghost predicate Knows(known: map<string, string>, earlier: seq<seq<Tool>>) {
    forall name :: if name in known then FirstHolds(earlier, name, known[name]) else NoneHolds(earlier, name)
  }

  lemma OneListMore(known: map<string, string>, before: map<string, string>, listed: seq<Tool>, later: seq<seq<Tool>>)
    requires Knows(before, later) && KnownAfter(known, before, listed)
    ensures Knows(known, [listed] + later)
  {
    var all := [listed] + later;
    forall name ensures if name in known then FirstHolds(all, name, known[name]) else NoneHolds(all, name) {
      if !HoldsNone(listed, name) {
        assert all[0] == listed;
      } else if name in before {
        var k :| 0 <= k < |later| && Holds(later[k], name, before[name])
                 && forall j :: 0 <= j < k ==> HoldsNone(later[j], name);
        assert all[k + 1] == later[k];
        forall j | 0 <= j < k + 1 ensures HoldsNone(all[j], name) {
          assert j > 0 ==> all[j] == later[j - 1];
        }
      } else {
        assert NoneHolds(all, name);
      }
    }
  }

  /** The tool with the secret its name holds, if the mask stands in for one. */
  ghost predicate Kept(earlier: seq<seq<Tool>>, tool: Tool, kept: Tool) {
    if !IsMasked(tool) then kept == tool
    else
      || (kept == tool && NoneHolds(earlier, tool.name))
      || (kept.secret.Some? && FirstHolds(earlier, tool.name, kept.secret.value) && kept == tool.(secret := kept.secret))
  }

  lemma RealIsNoMask(earlier: seq<seq<Tool>>, name: string, s: string)
    requires FirstHolds(earlier, name, s)
    ensures s != MASK && s != "" && !NoneHolds(earlier, name)
  {
    var k :| 0 <= k < |earlier| && Holds(earlier[k], name, s);
    var i :| 0 <= i < |earlier[k]| && Gives(earlier[k][i], name) && earlier[k][i].secret.value == s;
    assert earlier[k] in earlier && earlier[k][i] in earlier[k];
  }

  /** `keep_masked_tool_secrets`: each masked tool gets the secret of its name from the
      first earlier list that holds one, every other is as it came, and the indexes
      returned are those, in order, that no earlier list could fill. */
  method KeepMaskedToolSecrets(tools: seq<Tool>, earlier: seq<seq<Tool>>) returns (kept: seq<Tool>, unfilled: seq<nat>)
    ensures |kept| == |tools| && forall i :: 0 <= i < |tools| ==> Kept(earlier, tools[i], kept[i])
    ensures forall i, j :: 0 <= i < j < |unfilled| ==> unfilled[i] < unfilled[j]
    ensures forall i: nat :: i in unfilled <==> i < |tools| && IsMasked(tools[i]) && NoneHolds(earlier, tools[i].name)
  {
    var known := map[];
    var n := |earlier|;
    while n > 0
      invariant 0 <= n <= |earlier| && Knows(known, earlier[n..])
    {
      n := n - 1;
      ghost var before := known;
      known := Learn(known, earlier[n]);
      OneListMore(known, before, earlier[n], earlier[n + 1..]);
      assert earlier[n..] == [earlier[n]] + earlier[n + 1..];
    }
    assert earlier[0..] == earlier;
    kept := [];
    for i := 0 to |tools|
      invariant |kept| == i && forall j :: 0 <= j < i ==> Kept(earlier, tools[j], kept[j])
    {
      var tool := tools[i];
      if IsMasked(tool) && tool.name in known {
        tool := tool.(secret := Some(known[tool.name]));
      }
      kept := kept + [tool];
    }
    unfilled := [];
    for i := 0 to |kept|
      invariant forall k :: 0 <= k < |unfilled| ==> unfilled[k] < i
      invariant forall j, k :: 0 <= j < k < |unfilled| ==> unfilled[j] < unfilled[k]
      invariant forall j: nat :: j in unfilled <==> j < i && IsMasked(tools[j]) && NoneHolds(earlier, tools[j].name)
    {
      StillMasked(earlier, tools[i], kept[i]);
      if IsMasked(kept[i]) {
        unfilled := unfilled + [i];
      }
    }
  }

  /** A tool is still masked exactly when nothing could be filled in. */
  lemma StillMasked(earlier: seq<seq<Tool>>, tool: Tool, kept: Tool)
    requires Kept(earlier, tool, kept)
    ensures IsMasked(kept) <==> IsMasked(tool) && NoneHolds(earlier, tool.name)
  {
    if IsMasked(tool) && kept.secret.Some? && FirstHolds(earlier, tool.name, kept.secret.value) {
      RealIsNoMask(earlier, tool.name, kept.secret.value);
    }
  }

  /** What the lists hold for a name is one secret at most. */
  lemma OneSecretAtMost(earlier: seq<seq<Tool>>, name: string, s: string, t: string)
    requires FirstHolds(earlier, name, s) && FirstHolds(earlier, name, t)
    ensures s == t
  {
    var k :| 0 <= k < |earlier| && Holds(earlier[k], name, s) && forall j :: 0 <= j < k ==> HoldsNone(earlier[j], name);
    var m :| 0 <= m < |earlier| && Holds(earlier[m], name, t) && forall j :: 0 <= j < m ==> HoldsNone(earlier[j], name);
    var i :| 0 <= i < |earlier[k]| && Gives(earlier[k][i], name) && earlier[k][i].secret.value == s
             && forall j :: i < j < |earlier[k]| ==> !Gives(earlier[k][j], name);
    var l :| 0 <= l < |earlier[m]| && Gives(earlier[m][l], name) && earlier[m][l].secret.value == t
             && forall j :: l < j < |earlier[m]| ==> !Gives(earlier[m][j], name);
    assert earlier[k][i] in earlier[k] && earlier[m][l] in earlier[m];
    assert k == m && i == l;
  }
}
