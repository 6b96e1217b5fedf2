/** `wrap(route, keys)`: a facade whose methods forward to `invoke`. */
module Wrapping {
  import opened Outcomes
  import opened JsValue
  import opened Frames
  import opened Endpoint
  import opened Correlation

  /** An argument of `wrap`: `undefined`, or a JSON value. */
  datatype WrapArg = Absent | Given(v: Json)

  /** A wrapper: the route prefix, if `route` was truthy, and for each method
      name the key its closure currently holds. */
  datatype Wrapper = Wrapper(prefix: Option<string>, keys: map<string, string>)

  /** The method names of a key list: `wrapper[key]` names a property by `String(key)`. */
  function Names(items: seq<Json>): (names: map<string, string>)
    ensures forall i | 0 <= i < |items| :: ToJsString(items[i]) in names
    ensures forall k | k in names :: names[k] == k && exists i | 0 <= i < |items| :: ToJsString(items[i]) == k
  {
    map i | 0 <= i < |items| :: ToJsString(items[i]) := ToJsString(items[i])
  }

  /** `wrap(route, keys)`: with `keys` undefined, `route` is the key list and
      the route is `null`; the key list is required and must be an array. */
  function Wrap(route: WrapArg, keys: WrapArg): (r: Result<Wrapper>)
    ensures keys.Absent? && route.Absent? ==> r == Fail("no keys given")
    ensures r.Ok? ==> (keys.Given? && keys.v.JArr?) || (keys.Absent? && route.Given? && route.v.JArr?)
    ensures r.Ok? && keys.Absent? ==> r.value.prefix.None?
  {
    var (rt, ks) := if keys.Absent? then (Given(JNull), route) else (route, keys);
    if ks.Absent? then Fail("no keys given")
    else if !ks.v.JArr? then Fail("keys must be an array")
    else
      var prefix := if rt.Given? && Truthy(rt.v) then Some(ToJsString(rt.v)) else None;
      Ok(Wrapper(prefix, Names(ks.v.items)))
  }

  /** `JSON.stringify` of the argument array: functions and `undefined` become `null`. */
  function ArgsArray(args: seq<JsArg>): (items: seq<Json>)
    ensures |items| == |args|
    ensures forall i | 0 <= i < |args| :: items[i] == if args[i].Val? then args[i].v else JNull
  {
    if |args| == 0 then [] else [if args[0].Val? then args[0].v else JNull] + ArgsArray(args[1..])
  }

  /** The key after the closure's `key = route + "." + key`, when there is a prefix. */
  function NextKey(w: Wrapper, key: string): string {
    if w.prefix.Some? then w.prefix.value + "." + key else key
  }

  /** `wrapper[name](args...)`: a trailing function is popped as the callback,
      the closure's key is rewritten, and the call goes to `invoke` with the
      remaining arguments as params. Calling a name the wrapper lacks throws. */
  function CallWrapped(ep: Endpoint, w: Wrapper, name: string, args: seq<JsArg>): (r: (Step, Wrapper))
    ensures name !in w.keys ==> r.0.ep == ep && r.0.thrown.Some? && r.1 == w
    ensures name in w.keys ==> r.1 == w.(keys := w.keys[name := NextKey(w, w.keys[name])])
    ensures name in w.keys ==> r.0.thrown.None?
  {
    if name !in w.keys then (Step(ep, Some("TypeError: not a function")), w)
    else
      var popped := |args| > 0 && args[|args| - 1].Func?;
      var cb := if popped then args[|args| - 1] else Val(JNull);
      var rest := if popped then args[..|args| - 1] else args;
      var key := NextKey(w, w.keys[name]);
      (Invoke(ep, Some(key), Val(JArr(ArgsArray(rest))), cb, false), w.(keys := w.keys[name := key]))
  }

  /** `wrap(keys)` is `wrap(null, keys)`. */
  lemma KeysOnly(keys: Json)
    ensures Wrap(Given(keys), Absent) == Wrap(Given(JNull), Given(keys))
  {
  }

  /** The wrapper of a route and key list has one method per key, each
      holding its own name. */
  lemma WrapShape(route: Json, keys: seq<Json>, i: nat)
    requires i < |keys|
    ensures Wrap(Given(route), Given(JArr(keys))).Ok?
    ensures var w := Wrap(Given(route), Given(JArr(keys))).value;
      && w.prefix == (if Truthy(route) then Some(ToJsString(route)) else None)
      && ToJsString(keys[i]) in w.keys
      && w.keys[ToJsString(keys[i])] == ToJsString(keys[i])
  {
  }

  /** A call with a trailing function is `invoke` of the key the method
      holds next, with the other arguments and that function. */
  lemma CallWithCallback(ep: Endpoint, w: Wrapper, name: string, args: seq<JsArg>, c: CallbackId)
    requires name in w.keys
    ensures CallWrapped(ep, w, name, args + [Func(c)]).0
      == Invoke(ep, Some(NextKey(w, w.keys[name])), Val(JArr(ArgsArray(args))), Func(c), false)
  {
    assert (args + [Func(c)])[..|args|] == args;
  }

  /** The first call of a method with a trailing function is exactly `invoke`
      of the prefixed name with the other arguments and that function. */
  lemma FirstCallIsInvoke(ep: Endpoint, w: Wrapper, name: string, args: seq<JsArg>, c: CallbackId)
    requires name in w.keys && w.keys[name] == name
    ensures CallWrapped(ep, w, name, args + [Func(c)]).0
      == Invoke(ep, Some(if w.prefix.Some? then w.prefix.value + "." + name else name), Val(JArr(ArgsArray(args))), Func(c), false)
  {
    assert (args + [Func(c)])[..|args|] == args;
  }

  /** Without a trailing function the call is a notification: no id, nothing stored. */
  lemma CallWithoutCallback(ep: Endpoint, w: Wrapper, name: string, args: seq<JsArg>)
    requires name in w.keys
    requires |args| == 0 || !args[|args| - 1].Func?
    ensures var s := CallWrapped(ep, w, name, args).0;
      && s == Invoke(ep, Some(NextKey(w, w.keys[name])), Val(JArr(ArgsArray(args))), Val(JNull), false)
      && s.thrown.None? && s.ep.counter == ep.counter && s.ep.pending == ep.pending
  {
    InvokeWithoutCallback(ep, NextKey(w, w.keys[name]), Val(JArr(ArgsArray(args))), Val(JNull));
  }

  /** `n` copies of `prefix + "."` in front of `key`. */
  function Prefixed(prefix: string, n: nat, key: string): string {
    if n == 0 then key else prefix + "." + Prefixed(prefix, n - 1, key)
  }

  /** `n` successive calls of one method without arguments. */
  function CallRepeatedly(ep: Endpoint, w: Wrapper, name: string, n: nat): (Endpoint, Wrapper)
    requires name in w.keys
    decreases n
  {
    if n == 0 then (ep, w)
    else
      var r := CallWrapped(ep, w, name, []);
      CallRepeatedly(r.0.ep, r.1, name, n - 1)
  }

  /** Each call prepends the prefix once more to the key the method holds,
      so the n-th call with prefix `p` sends `p.p. ... .p.name`. */
  lemma KeyAccumulates(ep: Endpoint, w: Wrapper, name: string, n: nat, k: nat)
    requires name in w.keys && w.prefix.Some?
    requires w.keys[name] == Prefixed(w.prefix.value, k, name)
    ensures var r := CallRepeatedly(ep, w, name, n);
      && name in r.1.keys && r.1.prefix == w.prefix
      && r.1.keys[name] == Prefixed(w.prefix.value, k + n, name)
      && |r.0.out| == |ep.out| + n
  {
    RepeatedWrapper(ep, w, name, n);
    RepeatedKeys(w, name, n, k);
    RepeatedLines(ep, w, name, n);
  }

  /** The wrapper after `n` calls of method `name`: only its key changes. */
  function Rewritten(w: Wrapper, name: string, n: nat): (r: Wrapper)
    requires name in w.keys
    ensures name in r.keys
    decreases n
  {
    if n == 0 then w else Rewritten(w.(keys := w.keys[name := NextKey(w, w.keys[name])]), name, n - 1)
  }

  /** Repeated calls leave the wrapper `Rewritten` describes. */
  lemma {:induction false} RepeatedWrapper(ep: Endpoint, w: Wrapper, name: string, n: nat)
    requires name in w.keys
    ensures CallRepeatedly(ep, w, name, n).1 == Rewritten(w, name, n)
    decreases n
  {
    if n > 0 {
      var r := CallWrapped(ep, w, name, []);
      RepeatedWrapper(r.0.ep, r.1, name, n - 1);
    }
  }

  /** The key half of `KeyAccumulates`, on the wrapper alone. */
  lemma {:induction false} RepeatedKeys(w: Wrapper, name: string, n: nat, k: nat)
    requires name in w.keys && w.prefix.Some?
    requires w.keys[name] == Prefixed(w.prefix.value, k, name)
    ensures var r := Rewritten(w, name, n);
      r.prefix == w.prefix && r.keys[name] == Prefixed(w.prefix.value, k + n, name)
    decreases n
  {
    if n > 0 {
      var w2 := w.(keys := w.keys[name := NextKey(w, w.keys[name])]);
      assert w2.keys[name] == Prefixed(w.prefix.value, k + 1, name);
      RepeatedKeys(w2, name, n - 1, k + 1);
    }
  }

  /** Every call without arguments writes one line. */
  lemma {:induction false} RepeatedLines(ep: Endpoint, w: Wrapper, name: string, n: nat)
    requires name in w.keys
    ensures |CallRepeatedly(ep, w, name, n).0.out| == |ep.out| + n
    decreases n
  {
    if n > 0 {
      var r := CallWrapped(ep, w, name, []);
      CallWithoutCallback(ep, w, name, []);
      RepeatedLines(r.0.ep, r.1, name, n - 1);
    }
  }

  /** `wrap("fs", ["readdir"])`. */
  lemma WrapFs()
    ensures Wrap(Given(JStr("fs")), Given(JArr([JStr("readdir")]))) == Ok(Wrapper(Some("fs"), map["readdir" := "readdir"]))
  {
    var items := [JStr("readdir")];
    var names := Names(items);
    assert ToJsString(items[0]) == "readdir";
    assert "readdir" in names;
    assert names.Keys == {"readdir"};
    assert names == map["readdir" := "readdir"];
  }

  /** On that wrapper the first call of `readdir` rewrites its key to `fs.readdir`. */
  lemma FirstFsCallKey(ep: Endpoint, w: Wrapper)
    requires w == Wrapper(Some("fs"), map["readdir" := "readdir"])
    ensures CallWrapped(ep, w, "readdir", []).1 == Wrapper(Some("fs"), map["readdir" := "fs.readdir"])
  {
    assert NextKey(w, "readdir") == "fs.readdir";
    assert map["readdir" := "readdir"]["readdir" := "fs.readdir"] == map["readdir" := "fs.readdir"];
  }

  /** On that wrapper the second call of `readdir` asks for `fs.fs.readdir`. */
  lemma SecondCallDoublesPrefix(ep: Endpoint, args: seq<JsArg>, c: CallbackId)
    ensures var w := Wrapper(Some("fs"), map["readdir" := "readdir"]);
      var first := CallWrapped(ep, w, "readdir", []);
      && first.1.keys == map["readdir" := "fs.readdir"]
      && CallWrapped(first.0.ep, first.1, "readdir", args + [Func(c)]).0
         == Invoke(first.0.ep, Some("fs.fs.readdir"), Val(JArr(ArgsArray(args))), Func(c), false)
  {
    var w := Wrapper(Some("fs"), map["readdir" := "readdir"]);
    FirstFsCallKey(ep, w);
    var w1 := Wrapper(Some("fs"), map["readdir" := "fs.readdir"]);
    var next := CallWrapped(ep, w, "readdir", []).0.ep;
    CallWithCallback(next, w1, "readdir", args, c);
    DoubledFsKey();
  }

  lemma DoubledFsKey()
    ensures "fs" + "." + "fs.readdir" == "fs.fs.readdir"
  {
    var s := "fs.fs.readdir";
    assert s[..2] == "fs" && s[2] == '.' && s[3..] == "fs.readdir";
  }
}
