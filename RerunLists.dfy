/** The re-run target lists of the Job panel as specifications: which of a
    job's minions are failed, non-responding or unsuccessful, and the
    comma-separated target text offered for each menu item. */
module RerunLists {
  import opened Js
  import opened Strings
  import opened Wrappers

  /** The two fields the panel reads from a minion's entry in the job result. */
  datatype MinionResult = MinionResult(success: Value, retcode: Value)

  /** `info.Result`: the minions that answered, with their answers. */
  type Results = map<string, MinionResult>

  /** `JobPanel._isResultOk`: a truthy `success` and a `retcode` that is exactly 0. */
  function IsResultOk(r: MinionResult): (ok: bool)
    ensures ok <==> Truthy(r.success) && r.retcode == Num(0)
  {
    if !Truthy(r.success) then false
    else if r.retcode != Num(0) then false
    else true
  }

  /** The elements of `s` that satisfy `p`, in their order in `s`. */
  function Filter(s: seq<string>, p: string -> bool): (r: seq<string>)
    ensures forall x :: x in r <==> x in s && p(x)
    ensures |r| <= |s|
  {
    if s == [] then [] else (if p(s[0]) then [s[0]] else []) + Filter(s[1..], p)
  }

  /** Answered, but not ok. */
  function FailedMinions(roster: seq<string>, res: Results): seq<string> {
    Filter(roster, m => m in res && !IsResultOk(res[m]))
  }

  /** Did not answer. */
  function NonRespondingMinions(roster: seq<string>, res: Results): seq<string> {
    Filter(roster, m => m !in res)
  }

  /** Did not answer, or answered but not ok. */
  function UnsuccessfulMinions(roster: seq<string>, res: Results): seq<string> {
    Filter(roster, m => m !in res || !IsResultOk(res[m]))
  }

  /** The accumulator `minionList` of the list builders: "," before every id. */
  function Prefixed(xs: seq<string>): string {
    if xs == [] then "" else "," + xs[0] + Prefixed(xs[1..])
  }

  /** The menu's target text for "all minions": absent without a roster and
      for a roster of zero or one entries. */
  function AllMinionsTargets(minions: Option<seq<string>>): Option<string> {
    if minions.None? || |minions.value| <= 1 then None else Some(Join(minions.value))
  }

  /** The menu's target text for "failed minions": absent when there are none. */
  function FailedTargets(minions: Option<seq<string>>, res: Results): Option<string> {
    if minions.None? || FailedMinions(minions.value, res) == [] then None
    else Some(Join(FailedMinions(minions.value, res)))
  }

  /** The menu's target text for "non-responding minions": absent when there are none. */
  function NonRespondingTargets(minions: Option<seq<string>>, res: Results): Option<string> {
    if minions.None? || NonRespondingMinions(minions.value, res) == [] then None
    else Some(Join(NonRespondingMinions(minions.value, res)))
  }

  /** The menu's target text for "unsuccessful minions": offered only when the
      roster has both a failed and a non-responding minion. */
  function UnsuccessfulTargets(minions: Option<seq<string>>, res: Results): Option<string> {
    if minions.None? || FailedMinions(minions.value, res) == [] || NonRespondingMinions(minions.value, res) == [] then None
    else Some(Join(UnsuccessfulMinions(minions.value, res)))
  }

  // ---------------------------------------------------------------------------
  // Facts about the building blocks

  lemma {:induction false} FilterAppend(s: seq<string>, x: string, p: string -> bool)
    ensures Filter(s + [x], p) == Filter(s, p) + (if p(x) then [x] else [])
  {
    if s != [] {
      assert (s + [x])[1..] == s[1..] + [x];
      FilterAppend(s[1..], x, p);
    }
  }

  /** One more roster entry extends each list by that entry exactly when it
      falls in the list's class. */
  lemma ListsAppend(roster: seq<string>, res: Results, m: string)
    ensures m in res && !IsResultOk(res[m]) ==> FailedMinions(roster + [m], res) == FailedMinions(roster, res) + [m]
    ensures !(m in res && !IsResultOk(res[m])) ==> FailedMinions(roster + [m], res) == FailedMinions(roster, res)
    ensures m !in res ==> NonRespondingMinions(roster + [m], res) == NonRespondingMinions(roster, res) + [m]
    ensures m in res ==> NonRespondingMinions(roster + [m], res) == NonRespondingMinions(roster, res)
    ensures (m !in res || !IsResultOk(res[m])) ==> UnsuccessfulMinions(roster + [m], res) == UnsuccessfulMinions(roster, res) + [m]
    ensures !(m !in res || !IsResultOk(res[m])) ==> UnsuccessfulMinions(roster + [m], res) == UnsuccessfulMinions(roster, res)
  {
    FilterAppend(roster, m, m => m in res && !IsResultOk(res[m]));
    FilterAppend(roster, m, m => m !in res);
    FilterAppend(roster, m, m => m !in res || !IsResultOk(res[m]));
    assert UnsuccessfulMinions(roster, res) + [] == UnsuccessfulMinions(roster, res);
    assert FailedMinions(roster, res) + [] == FailedMinions(roster, res);
    assert NonRespondingMinions(roster, res) + [] == NonRespondingMinions(roster, res);
  }

  /** When every roster member answered, no minion is missing. */
  lemma {:induction false} AllAnsweredNoneMissing(roster: seq<string>, res: Results)
    requires forall m :: m in roster ==> m in res
    ensures NonRespondingMinions(roster, res) == []
  {
    if roster != [] {
      assert roster[0] in roster;
      AllAnsweredNoneMissing(roster[1..], res);
    }
  }

  lemma {:induction false} PrefixedAppend(xs: seq<string>, x: string)
    ensures Prefixed(xs + [x]) == Prefixed(xs) + "," + x
  {
    if xs != [] {
      assert (xs + [x])[1..] == xs[1..] + [x];
      PrefixedAppend(xs[1..], x);
    }
  }

  /** Dropping the leading comma of the accumulator gives the comma-joined list. */
  lemma {:induction false} PrefixedJoin(xs: seq<string>)
    ensures Prefixed(xs) == "" <==> xs == []
    ensures xs != [] ==> Prefixed(xs) == "," + Join(xs)
  {
    if |xs| > 1 {
      PrefixedJoin(xs[1..]);
    }
  }

  /** The "trivial case" test of `_listForRerunJobOnAllMinions`, comparing the
      accumulator with "," + the first id, holds exactly for a one-entry roster. */
  lemma {:induction false} PrefixedSingleton(xs: seq<string>)
    requires xs != []
    ensures Prefixed(xs) == "," + xs[0] <==> |xs| == 1
  {
    if |xs| > 1 {
      PrefixedJoin(xs[1..]);
      assert |Prefixed(xs)| > |"," + xs[0]|;
    }
  }

  lemma {:induction false} FilterSubsequence(s: seq<string>, p: string -> bool)
    ensures Subsequence(Filter(s, p), s)
  {
    if s != [] {
      FilterSubsequence(s[1..], p);
      if p(s[0]) {
        assert Filter(s, p)[1..] == Filter(s[1..], p);
      } else {
        assert Filter(s, p) == Filter(s[1..], p);
      }
    }
  }

  /** Filtering a filtered list by a stronger condition is filtering once. */
  lemma {:induction false} FilterFilter(s: seq<string>, p: string -> bool, q: string -> bool)
    requires forall x :: p(x) ==> q(x)
    ensures Filter(Filter(s, q), p) == Filter(s, p)
  {
    if s != [] {
      FilterFilter(s[1..], p, q);
      var fq := Filter(s, q);
      if q(s[0]) {
        assert fq == [s[0]] + Filter(s[1..], q);
        assert fq[1..] == Filter(s[1..], q);
        assert Filter(fq, p) == (if p(s[0]) then [s[0]] else []) + Filter(fq[1..], p);
      } else {
        assert fq == Filter(s[1..], q);
        assert Filter(s, p) == Filter(s[1..], p);
      }
    }
  }

  // ---------------------------------------------------------------------------
  // What the target lists mean

  /** A minion is failed exactly when it is on the roster, answered and is not ok;
      non-responding exactly when it is on the roster and did not answer;
      unsuccessful exactly when it is one of the two. No minion is both. */
  lemma Classification(roster: seq<string>, res: Results, m: string)
    ensures m in FailedMinions(roster, res) <==> m in roster && m in res && !IsResultOk(res[m])
    ensures m in NonRespondingMinions(roster, res) <==> m in roster && m !in res
    ensures m in UnsuccessfulMinions(roster, res) <==>
      m in FailedMinions(roster, res) || m in NonRespondingMinions(roster, res)
    ensures !(m in FailedMinions(roster, res) && m in NonRespondingMinions(roster, res))
  {
  }

  /** The three lists keep roster order. */
  lemma ListsKeepRosterOrder(roster: seq<string>, res: Results)
    ensures Subsequence(FailedMinions(roster, res), roster)
    ensures Subsequence(NonRespondingMinions(roster, res), roster)
    ensures Subsequence(UnsuccessfulMinions(roster, res), roster)
  {
    FilterSubsequence(roster, m => m in res && !IsResultOk(res[m]));
    FilterSubsequence(roster, m => m !in res);
    FilterSubsequence(roster, m => m !in res || !IsResultOk(res[m]));
  }

  /** The unsuccessful list is the order-preserving merge of the failed and the
      non-responding lists: taking its failed, respectively non-responding,
      members gives back exactly those lists. */
  lemma UnsuccessfulIsMerge(roster: seq<string>, res: Results)
    ensures Filter(UnsuccessfulMinions(roster, res), m => m in res && !IsResultOk(res[m])) == FailedMinions(roster, res)
    ensures Filter(UnsuccessfulMinions(roster, res), m => m !in res) == NonRespondingMinions(roster, res)
  {
    FilterFilter(roster, m => m in res && !IsResultOk(res[m]), m => m !in res || !IsResultOk(res[m]));
    FilterFilter(roster, m => m !in res, m => m !in res || !IsResultOk(res[m]));
  }

  /** The unsuccessful item is offered only when both narrower items are, and
      then its list holds every missing or not-ok minion. */
  lemma UnsuccessfulNeedsBoth(minions: Option<seq<string>>, res: Results)
    ensures UnsuccessfulTargets(minions, res).Some? ==>
      FailedTargets(minions, res).Some? && NonRespondingTargets(minions, res).Some?
    ensures FailedTargets(minions, res).Some? && NonRespondingTargets(minions, res).Some? ==>
      UnsuccessfulTargets(minions, res) == Some(Join(UnsuccessfulMinions(minions.value, res)))
  {
  }

  /** No roster id contains a comma, so a comma-joined list can be split back. */
  ghost predicate CommaFree(roster: seq<string>) {
    forall k :: 0 <= k < |roster| ==> ',' !in roster[k]
  }

  lemma CommaFreeFilter(roster: seq<string>, p: string -> bool)
    requires CommaFree(roster)
    ensures CommaFree(Filter(roster, p))
  {
    var r := Filter(roster, p);
    forall k | 0 <= k < |r| ensures ',' !in r[k] {
      assert r[k] in roster;
    }
  }

  /** The "all minions" target, read back as the list target type reads it,
      is the whole roster in roster order. */
  lemma AllMinionsTargetsDenote(minions: Option<seq<string>>)
    requires minions.Some? ==> CommaFree(minions.value)
    ensures AllMinionsTargets(minions).None? <==> minions.None? || |minions.value| <= 1
    ensures AllMinionsTargets(minions).Some? ==> Split(AllMinionsTargets(minions).value) == minions.value
  {
    if AllMinionsTargets(minions).Some? {
      SplitJoin(minions.value);
    }
  }

  /** The "failed minions" target names exactly the failed roster members, in roster order. */
  lemma FailedTargetsDenote(minions: Option<seq<string>>, res: Results)
    requires minions.Some? ==> CommaFree(minions.value)
    ensures FailedTargets(minions, res).None? <==>
      minions.None? || forall m :: m in minions.value && m in res ==> IsResultOk(res[m])
    ensures FailedTargets(minions, res).Some? ==>
      Split(FailedTargets(minions, res).value) == FailedMinions(minions.value, res)
  {
    if minions.Some? {
      var f := FailedMinions(minions.value, res);
      if f == [] {
        forall m | m in minions.value && m in res ensures IsResultOk(res[m]) {
          Classification(minions.value, res, m);
        }
      } else {
        assert f[0] in f;
        CommaFreeFilter(minions.value, m => m in res && !IsResultOk(res[m]));
        SplitJoin(f);
      }
    }
  }

  /** The "non-responding minions" target names exactly the roster members
      missing from the result, in roster order. */
  lemma NonRespondingTargetsDenote(minions: Option<seq<string>>, res: Results)
    requires minions.Some? ==> CommaFree(minions.value)
    ensures NonRespondingTargets(minions, res).None? <==>
      minions.None? || forall m :: m in minions.value ==> m in res
    ensures NonRespondingTargets(minions, res).Some? ==>
      Split(NonRespondingTargets(minions, res).value) == NonRespondingMinions(minions.value, res)
  {
    if minions.Some? {
      var n := NonRespondingMinions(minions.value, res);
      if n != [] {
        assert n[0] in n;
        CommaFreeFilter(minions.value, m => m !in res);
        SplitJoin(n);
      }
    }
  }

  /** The "unsuccessful minions" target names exactly the roster members that
      are missing or not ok, in roster order. */
  lemma UnsuccessfulTargetsDenote(minions: Option<seq<string>>, res: Results)
    requires minions.Some? ==> CommaFree(minions.value)
    ensures UnsuccessfulTargets(minions, res).Some? ==>
      Split(UnsuccessfulTargets(minions, res).value) == UnsuccessfulMinions(minions.value, res)
  {
    if UnsuccessfulTargets(minions, res).Some? {
      var u := UnsuccessfulMinions(minions.value, res);
      var f := FailedMinions(minions.value, res);
      assert f[0] in f;
      Classification(minions.value, res, f[0]);
      assert u != [];
      CommaFreeFilter(minions.value, m => m !in res || !IsResultOk(res[m]));
      SplitJoin(u);
    }
  }

  // ---------------------------------------------------------------------------
  // Membership as the source tests it

  /** The names every plain JavaScript object inherits from `Object.prototype`;
      the operator `in` also sees these. */
  const ObjectPrototypeKeys: set<string> := {
    "constructor", "hasOwnProperty", "isPrototypeOf", "propertyIsEnumerable",
    "toLocaleString", "toString", "valueOf", "__proto__",
    "__defineGetter__", "__defineSetter__", "__lookupGetter__", "__lookupSetter__"}

  /** `minionId in this.result` as written: own keys and inherited names. */
  predicate InResultAsWritten(res: Results, m: string) {
    m in res || m in ObjectPrototypeKeys
  }

  /** The failed list as written: an inherited name reads a function from the
      result, whose `success` is undefined, so it counts as answered and not ok. */
  function FailedMinionsAsWritten(roster: seq<string>, res: Results): seq<string> {
    Filter(roster, m => InResultAsWritten(res, m) && (m in res ==> !IsResultOk(res[m])))
  }

  /** The non-responding list as written. */
  function NonRespondingMinionsAsWritten(roster: seq<string>, res: Results): seq<string> {
    Filter(roster, m => !InResultAsWritten(res, m))
  }

  /** The unsuccessful list as written: an inherited name is not an own key,
      so it is listed, with the members that are missing or not ok. */
  function UnsuccessfulMinionsAsWritten(roster: seq<string>, res: Results): seq<string> {
    Filter(roster, m => !InResultAsWritten(res, m) || (m in res ==> !IsResultOk(res[m])))
  }

  /** `_listForRerunJobOnUnsuccessfulMinions` as written: `has1` is set by a
      member not found by `in`, `has2` by one found by `in` and not ok. */
  function UnsuccessfulTargetsAsWritten(minions: Option<seq<string>>, res: Results): Option<string> {
    if minions.None? || UnsuccessfulMinionsAsWritten(minions.value, res) == [] then None
    else if NonRespondingMinionsAsWritten(minions.value, res) == [] then None
    else if FailedMinionsAsWritten(minions.value, res) == [] then None
    else Some(Join(UnsuccessfulMinionsAsWritten(minions.value, res)))
  }

  /** An unanswered "constructor" beside a failed minion: the code as written
      sees no missing minion, so `has1` stays false and the item is hidden;
      the own-key target offers both minions. */
  lemma PrototypeNameHidesUnsuccessful()
    ensures UnsuccessfulTargetsAsWritten(Some(["constructor", "x"]), map["x" := MinionResult(Bool(false), Num(1))]) == None
    ensures UnsuccessfulTargets(Some(["constructor", "x"]), map["x" := MinionResult(Bool(false), Num(1))]) == Some("constructor,x")
  {
    var roster := ["constructor", "x"];
    var res := map["x" := MinionResult(Bool(false), Num(1))];
    assert "constructor" in ObjectPrototypeKeys;
    assert roster[1..] == ["x"];
    assert NonRespondingMinionsAsWritten(roster, res) == [];
    assert FailedMinions(roster, res) == ["x"];
    assert NonRespondingMinions(roster, res) == ["constructor"];
    assert UnsuccessfulMinions(roster, res) == ["constructor", "x"];
    assert Join(roster) == "constructor" + "," + Join(["x"]);
    assert Join(["x"]) == "x";
    assert "constructor" + "," + "x" == "constructor,x";
    assert UnsuccessfulTargets(Some(roster), res) == Some(Join(roster));
  }

  /** A minion called "constructor" that has not answered is listed as failed
      and not as non-responding by the code as written; the own-key lists put
      it where it belongs. */
  lemma PrototypeNameMisclassified()
    ensures NonRespondingMinionsAsWritten(["constructor"], map[]) == []
    ensures FailedMinionsAsWritten(["constructor"], map[]) == ["constructor"]
    ensures NonRespondingMinions(["constructor"], map[]) == ["constructor"]
    ensures FailedMinions(["constructor"], map[]) == []
  {
    assert "constructor" in ObjectPrototypeKeys;
  }

  /** For ids that are not inherited names the code as written and the own-key
      lists agree. */
  lemma {:induction false} AsWrittenAgrees(roster: seq<string>, res: Results)
    requires forall k :: 0 <= k < |roster| ==> roster[k] !in ObjectPrototypeKeys
    ensures FailedMinionsAsWritten(roster, res) == FailedMinions(roster, res)
    ensures NonRespondingMinionsAsWritten(roster, res) == NonRespondingMinions(roster, res)
    ensures UnsuccessfulMinionsAsWritten(roster, res) == UnsuccessfulMinions(roster, res)
    ensures UnsuccessfulTargetsAsWritten(Some(roster), res) == UnsuccessfulTargets(Some(roster), res)
  {
    if roster != [] {
      AsWrittenAgrees(roster[1..], res);
    }
  }
}
