/** How the Job panel renders a job's argument list after the function name
    (`JobPanel.decodeArgumentsObj` and `JobPanel.decodeArgumentsArray`). */
module JobArguments {
  import opened Js
  import opened Strings

  /** The helpers whose source is not part of this model, taken as given. */
  datatype Formatter = Formatter(
    stringify: Value -> string,        // JSON.stringify
    matchesJid: string -> bool,        // ParseCommandLine.getPatJid().test
    matchesSimpleName: string -> bool) // the identifier pattern of decodeArgumentsObj

  /** The key that marks the one argument object holding all keyword arguments. */
  const KwargMarker := "__kwarg__"

  /** A string that is shown without JSON quotes: a job id or a dotted identifier. */
  predicate ShownVerbatim(f: Formatter, v: Value) {
    v.Str? && (f.matchesJid(v.s) || f.matchesSimpleName(v.s))
  }

  /** One argument value: strings that look like a job id or an identifier are
      shown as they are, everything else as its JSON text. */
  function DecodeArgumentsObj(f: Formatter, v: Value): (r: string)
    ensures ShownVerbatim(f, v) ==> r == v.s
    ensures !ShownVerbatim(f, v) ==> r == f.stringify(v)
  {
    if !v.Str? then f.stringify(v)
    else if f.matchesJid(v.s) then v.s
    else if f.matchesSimpleName(v.s) then v.s
    else f.stringify(v)
  }

  /** An array element that carries the keyword arguments. */
  predicate IsKwargs(v: Value) {
    Truthy(v) && IsObjectType(v) && v.Obj? && HasKey(v.props, KwargMarker)
  }

  /** The keys rendered for a keyword-argument object: sorted, marker left out. */
  function KwargKeys(p: Props): seq<string> {
    Omit(Sort(Keys(p)), KwargMarker)
  }

  /** " key=value" for one keyword argument. */
  function KwargPair(f: Formatter, p: Props, k: string): string {
    " " + k + "=" + DecodeArgumentsObj(f, Get(p, k))
  }

  /** " key=value" for each key in `ks`, in that order. */
  function KwargText(f: Formatter, p: Props, ks: seq<string>): string
  {
    if ks == [] then "" else KwargPair(f, p, ks[0]) + KwargText(f, p, ks[1..])
  }

  /** What one element of the argument array contributes. */
  function ElementText(f: Formatter, v: Value): string {
    if IsKwargs(v) then KwargText(f, v.props, KwargKeys(v.props))
    else " " + DecodeArgumentsObj(f, v)
  }

  /** The contributions of all elements, in array order. */
  function ArgsText(f: Formatter, elems: seq<Value>): string
  {
    if elems == [] then "" else ElementText(f, elems[0]) + ArgsText(f, elems[1..])
  }

  /** The whole argument text appended to the job's function name. */
  function DecodedArguments(f: Formatter, raw: Value): string {
    match raw
    case Undefined => ""
    case Arr(elems) => ArgsText(f, elems)
    case _ => " " + DecodeArgumentsObj(f, raw)
  }

  lemma {:induction false} KwargTextAppend(f: Formatter, p: Props, ks: seq<string>, k: string)
    ensures KwargText(f, p, ks + [k]) == KwargText(f, p, ks) + KwargPair(f, p, k)
  {
    if ks != [] {
      var head := KwargPair(f, p, ks[0]);
      assert (ks + [k])[1..] == ks[1..] + [k];
      assert KwargText(f, p, ks + [k]) == head + KwargText(f, p, ks[1..] + [k]);
      KwargTextAppend(f, p, ks[1..], k);
      var rest := KwargText(f, p, ks[1..]);
      var last := KwargPair(f, p, k);
      assert head + (rest + last) == (head + rest) + last;
    }
  }


  lemma {:induction false} ArgsTextAppend(f: Formatter, elems: seq<Value>, v: Value)
    ensures ArgsText(f, elems + [v]) == ArgsText(f, elems) + ElementText(f, v)
  {
    if elems != [] {
      var head := ElementText(f, elems[0]);
      assert (elems + [v])[1..] == elems[1..] + [v];
      assert ArgsText(f, elems + [v]) == head + ArgsText(f, elems[1..] + [v]);
      ArgsTextAppend(f, elems[1..], v);
      var rest := ArgsText(f, elems[1..]);
      var last := ElementText(f, v);
      assert head + (rest + last) == (head + rest) + last;
    }
  }

  lemma {:induction false} OmitAppend(ks: seq<string>, k: string, x: string)
    ensures Omit(ks + [k], x) == Omit(ks, x) + (if k == x then [] else [k])
  {
    if ks != [] {
      assert (ks + [k])[1..] == ks[1..] + [k];
      OmitAppend(ks[1..], k, x);
    }
  }

  /** The keyword keys are exactly the object's own keys other than the
      marker, each once, in sorted order. */
  lemma KwargKeysSound(p: Props)
    requires WellFormed(p)
    ensures forall k :: k in KwargKeys(p) <==> HasKey(p, k) && k != KwargMarker
    ensures Sorted(KwargKeys(p))
    ensures forall i, j :: 0 <= i < j < |KwargKeys(p)| ==> KwargKeys(p)[i] != KwargKeys(p)[j]
  {
    var sorted := Sort(Keys(p));
    SortedKeysMembers(p);
    SortedKeysDistinct(p);
    OmitSortedDistinct(sorted, KwargMarker);
  }

  lemma SortedKeysMembers(p: Props)
    ensures forall k :: k in Sort(Keys(p)) <==> HasKey(p, k)
  {
    var sorted := Sort(Keys(p));
    forall k ensures k in sorted <==> HasKey(p, k) {
      assert k in sorted <==> k in multiset(Keys(p));
      if HasKey(p, k) {
        var i :| 0 <= i < |p| && p[i].0 == k;
        assert Keys(p)[i] == k;
      }
    }
  }

  lemma SortedKeysDistinct(p: Props)
    requires WellFormed(p)
    ensures forall i, j :: 0 <= i < j < |Sort(Keys(p))| ==> Sort(Keys(p))[i] != Sort(Keys(p))[j]
  {
    var sorted := Sort(Keys(p));
    forall i, j | 0 <= i < j < |sorted| ensures sorted[i] != sorted[j] {
      if sorted[i] == sorted[j] {
        RepeatedCount(sorted, i, j);
        DistinctKeysCount(p, sorted[i]);
      }
    }
  }

  lemma RepeatedCount(s: seq<string>, i: nat, j: nat)
    requires i < j < |s| && s[i] == s[j]
    ensures multiset(s)[s[i]] >= 2
  {
    assert s == s[..j] + s[j..];
    assert s[i] == s[..j][i];
    assert s[j] == s[j..][0];
    assert multiset(s) == multiset(s[..j]) + multiset(s[j..]);
  }

  /** In a well-formed object every key is listed once by `Object.keys`. */
  lemma {:induction false} DistinctKeysCount(p: Props, k: string)
    requires WellFormed(p)
    ensures multiset(Keys(p))[k] <= 1
  {
    if p != [] {
      assert Keys(p) == [p[0].0] + Keys(p[1..]);
      assert WellFormed(p[1..]) by {
        forall i, j | 0 <= i < j < |p[1..]| ensures p[1..][i].0 != p[1..][j].0 {
          assert p[1..][i] == p[i + 1] && p[1..][j] == p[j + 1];
        }
      }
      DistinctKeysCount(p[1..], k);
      if p[0].0 == k {
        assert k !in Keys(p[1..]);
      }
    }
  }

  lemma {:induction false} OmitSortedDistinct(ks: seq<string>, x: string)
    requires Sorted(ks)
    ensures Sorted(Omit(ks, x))
    ensures (forall i, j :: 0 <= i < j < |ks| ==> ks[i] != ks[j]) ==>
      forall i, j :: 0 <= i < j < |Omit(ks, x)| ==> Omit(ks, x)[i] != Omit(ks, x)[j]
  {
    if ks != [] {
      assert Sorted(ks[1..]) by {
        forall i, j | 0 <= i < j < |ks[1..]| ensures LexLe(ks[1..][i], ks[1..][j]) {
          assert ks[1..][i] == ks[i + 1] && ks[1..][j] == ks[j + 1];
        }
      }
      OmitSortedDistinct(ks[1..], x);
      var rest := Omit(ks[1..], x);
      if ks[0] != x {
        forall j | 0 <= j < |rest| ensures LexLe(ks[0], rest[j]) && (
          (forall a, b :: 0 <= a < b < |ks| ==> ks[a] != ks[b]) ==> ks[0] != rest[j])
        {
          assert rest[j] in ks[1..];
          var m :| 0 <= m < |ks[1..]| && ks[1..][m] == rest[j];
          assert ks[m + 1] == rest[j];
        }
      }
    }
  }

  /** A non-empty rendering always starts with the space that separates it from the function name. */
  lemma {:induction false} DecodedArgumentsSeparated(f: Formatter, raw: Value)
    ensures DecodedArguments(f, raw) == "" || DecodedArguments(f, raw)[0] == ' '
  {
    if raw.Arr? {
      ArgsTextSeparated(f, raw.elems);
    }
  }

  lemma {:induction false} ArgsTextSeparated(f: Formatter, elems: seq<Value>)
    ensures ArgsText(f, elems) == "" || ArgsText(f, elems)[0] == ' '
  {
    if elems != [] {
      var v := elems[0];
      ArgsTextSeparated(f, elems[1..]);
      if IsKwargs(v) {
        var ks := KwargKeys(v.props);
        if ks == [] {
          assert ElementText(f, v) == "";
        } else {
          assert KwargText(f, v.props, ks)[0] == ' ';
        }
      }
    }
  }

  /** `JobPanel.decodeArgumentsArray`: loops over the elements, and over the
      sorted keys of a keyword-argument object, appending to `ret`. */
  method DecodeArgumentsArray(f: Formatter, raw: Value) returns (ret: string)
    ensures ret == DecodedArguments(f, raw)
  {
    if raw.Undefined? {
      return "";
    }
    if !IsObjectType(raw) {
      return " " + DecodeArgumentsObj(f, raw);
    }
    if !raw.Arr? {
      return " " + DecodeArgumentsObj(f, raw);
    }
    var elems := raw.elems;
    ret := "";
    var i := 0;
    while i < |elems|
      invariant 0 <= i <= |elems|
      invariant ret == ArgsText(f, elems[..i])
    {
      var obj := elems[i];
      ArgsStep(f, elems, i, ret);
      if IsKwargs(obj) {
        var keys := Sort(Keys(obj.props));
        var kwargsText := AppendKwargs(f, obj.props, keys);
        ret := ret + kwargsText;
      } else {
        ret := ret + (" " + DecodeArgumentsObj(f, obj));
      }
      i := i + 1;
    }
    assert elems[..i] == elems;
  }

  /** The inner loop of `decodeArgumentsArray` over the sorted keys of one
      keyword-argument object, skipping the marker key. */
  method AppendKwargs(f: Formatter, p: Props, keys: seq<string>) returns (ret: string)
    ensures ret == KwargText(f, p, Omit(keys, KwargMarker))
  {
    ret := "";
    var j := 0;
    while j < |keys|
      invariant 0 <= j <= |keys|
      invariant ret == KwargText(f, p, Omit(keys[..j], KwargMarker))
    {
      var key := keys[j];
      KwargStep(f, p, keys, j, ret);
      if key != KwargMarker {
        ret := ret + (" " + key + "=" + DecodeArgumentsObj(f, Get(p, key)));
      }
      j := j + 1;
    }
    assert keys[..j] == keys;
  }

  lemma ArgsStep(f: Formatter, elems: seq<Value>, i: nat, ret: string)
    requires i < |elems| && ret == ArgsText(f, elems[..i])
    ensures ret + ElementText(f, elems[i]) == ArgsText(f, elems[..i + 1])
  {
    TakeSnoc(elems, i);
    ArgsTextAppend(f, elems[..i], elems[i]);
  }

  /** One turn of the key loop, stated on the accumulated text. */
  lemma KwargStep(f: Formatter, p: Props, keys: seq<string>, j: nat, ret: string)
    requires j < |keys| && ret == KwargText(f, p, Omit(keys[..j], KwargMarker))
    ensures keys[j] == KwargMarker ==> ret == KwargText(f, p, Omit(keys[..j + 1], KwargMarker))
    ensures keys[j] != KwargMarker ==>
      ret + (" " + keys[j] + "=" + DecodeArgumentsObj(f, Get(p, keys[j]))) ==
      KwargText(f, p, Omit(keys[..j + 1], KwargMarker))
  {
    TakeSnoc(keys, j);
    var done := Omit(keys[..j], KwargMarker);
    OmitAppend(keys[..j], keys[j], KwargMarker);
    if keys[j] == KwargMarker {
      assert done + [] == done;
    } else {
      KwargTextAppend(f, p, done, keys[j]);
    }
  }

}
