/** The client configuration tree and its dotted-path accessors `getConfig`
    and `setConfig` (frontend/js/config.js). */
module ConfigTree {
  import opened Common
  import GameController

  /** A JavaScript value as far as the configuration needs one. */
  datatype Value = Undefined | Null | Bool(b: bool) | Num(n: real) | Str(s: string) | Obj(fields: map<string, Value>)

  predicate Truthy(v: Value) {
    match v
    case Undefined => false
    case Null => false
    case Bool(b) => b
    case Num(n) => n != 0.0
    case Str(s) => s != ""
    case Obj(_) => true
  }

  /** `v[k]`: an own property of an object; properties of primitives are not
      modelled and read as undefined. */
  function Prop(v: Value, k: string): Value {
    if v.Obj? && k in v.fields then v.fields[k] else Undefined
  }

  /** One step of the `getConfig` reduction, `obj && obj[k]`. */
  function Step(v: Value, k: string): Value {
    if Truthy(v) then Prop(v, k) else v
  }

  function GetIn(v: Value, keys: seq<string>): Value
    decreases |keys|
  {
    if keys == [] then v else GetIn(Step(v, keys[0]), keys[1..])
  }

  /** The `setConfig` walk: each step replaces a falsy child with `{}` and
      descends; a truthy primitive on the way swallows the assignment, as an
      assignment to a primitive's property does. */
  function SetIn(v: Value, path: seq<string>, last: string, x: Value): Value
    decreases |path|
  {
    if !v.Obj? then v
    else if path == [] then Obj(v.fields[last := x])
    else
      var k := path[0];
      var child := if k in v.fields && Truthy(v.fields[k]) then v.fields[k] else Obj(map[]);
      Obj(v.fields[k := SetIn(child, path[1..], last, x)])
  }

  /** `key.split(sep)`. */
  function Split(s: string, sep: char): (parts: seq<string>)
    ensures |parts| >= 1
    ensures forall i :: 0 <= i < |parts| ==> sep !in parts[i]
    decreases |s|
  {
    var i := IndexOf(s, sep);
    if i == |s| then [s] else [s[..i]] + Split(s[i + 1..], sep)
  }

  function Join(parts: seq<string>, sep: char): string
    requires |parts| >= 1
  {
    if |parts| == 1 then parts[0] else parts[0] + [sep] + Join(parts[1..], sep)
  }

  /** Splitting loses nothing: joining the parts gives the key back. */
  lemma {:induction false} JoinSplit(s: string, sep: char)
    ensures Join(Split(s, sep), sep) == s
    decreases |s|
  {
    var i := IndexOf(s, sep);
    if i < |s| {
      var rest := Split(s[i + 1..], sep);
      var parts := [s[..i]] + rest;
      assert Split(s, sep) == parts;
      assert parts[1..] == rest;
      JoinSplit(s[i + 1..], sep);
      assert Join(parts, sep) == s[..i] + [sep] + s[i + 1..];
      assert s == s[..i] + [sep] + s[i + 1..];
    }
  }

  /** `getConfig(key)` on a tree. */
  function GetConfig(config: Value, key: string): Value {
    GetIn(config, Split(key, '.'))
  }

  /** `setConfig(key, value)` on a tree: the result is the new tree. */
  function SetConfig(config: Value, key: string, x: Value): Value {
    var ks := Split(key, '.');
    SetIn(config, ks[..|ks| - 1], ks[|ks| - 1], x)
  }

  /** Every node the path reaches is an object, or is falsy and so replaced
      by `{}` on the way. */
  predicate Open(v: Value, path: seq<string>)
    decreases |path|
  {
    v.Obj? && (path != [] ==> (!Truthy(Prop(v, path[0])) || Open(Prop(v, path[0]), path[1..])))
  }

  /** Every node the path reaches is an object, or is missing. */
  predicate Clear(v: Value, path: seq<string>)
    decreases |path|
  {
    v.Obj? && (path != [] ==> (Prop(v, path[0]) == Undefined || Clear(Prop(v, path[0]), path[1..])))
  }

  lemma EmptyIsClear(path: seq<string>)
    ensures Clear(Obj(map[]), path)
  {
  }

  lemma EmptyIsOpen(path: seq<string>)
    ensures Open(Obj(map[]), path)
  {
  }

  lemma {:induction false} GetUndefined(keys: seq<string>)
    ensures GetIn(Undefined, keys) == Undefined
    decreases |keys|
  {
    if keys != [] {
      GetUndefined(keys[1..]);
    }
  }

  /** Reading the path just written gives the written value. */
  lemma {:induction false} GetAfterSet(v: Value, path: seq<string>, last: string, x: Value)
    requires Open(v, path)
    ensures GetIn(SetIn(v, path, last, x), path + [last]) == x
    decreases |path|
  {
    if path == [] {
      assert ([] + [last])[1..] == [];
    } else {
      var k := path[0];
      var child := if k in v.fields && Truthy(v.fields[k]) then v.fields[k] else Obj(map[]);
      if !Truthy(Prop(v, k)) {
        EmptyIsOpen(path[1..]);
      }
      GetAfterSet(child, path[1..], last, x);
      assert (path + [last])[1..] == path[1..] + [last];
    }
  }

  /** Every node along the written path is an object afterwards. */
  lemma {:induction false} SetCreatesPath(v: Value, path: seq<string>, last: string, x: Value, i: nat)
    requires Open(v, path) && i <= |path|
    ensures GetIn(SetIn(v, path, last, x), path[..i]).Obj?
    decreases |path|
  {
    if i > 0 {
      var k := path[0];
      var child := if k in v.fields && Truthy(v.fields[k]) then v.fields[k] else Obj(map[]);
      if !Truthy(Prop(v, k)) {
        EmptyIsOpen(path[1..]);
      }
      SetCreatesPath(child, path[1..], last, x, i - 1);
      assert path[..i][1..] == path[1..][..i - 1];
    }
  }

  /** A path that leaves the written one reads the same as before. */
  lemma {:induction false} SetFrame(v: Value, path: seq<string>, last: string, x: Value, q: seq<string>, i: nat)
    requires Clear(v, path)
    requires i <= |path| && i < |q| && q[..i] == path[..i] && q[i] != (path + [last])[i]
    ensures GetIn(SetIn(v, path, last, x), q) == GetIn(v, q)
    decreases |path|
  {
    if i > 0 {
      var k := path[0];
      assert q[0] == q[..i][0] == path[..i][0] == k;
      var child := if k in v.fields && Truthy(v.fields[k]) then v.fields[k] else Obj(map[]);
      if Prop(v, k) == Undefined {
        EmptyIsClear(path[1..]);
        GetUndefined(q[1..]);
        GetUndefined(q[2..]);
      }
      assert q[1..][..i - 1] == path[1..][..i - 1];
      assert (path[1..] + [last])[i - 1] == (path + [last])[i];
      SetFrame(child, path[1..], last, x, q[1..], i - 1);
    }
  }

  lemma {:induction false} GetAppend(v: Value, a: seq<string>, b: seq<string>)
    ensures GetIn(v, a + b) == GetIn(GetIn(v, a), b)
    decreases |a|
  {
    if a != [] {
      assert (a + b)[1..] == a[1..] + b;
      GetAppend(Step(v, a[0]), a[1..], b);
    } else {
      assert a + b == b;
    }
  }

  lemma {:induction false} GetFalsy(w: Value, b: seq<string>)
    requires !Truthy(w)
    ensures GetIn(w, b) == w
    decreases |b|
  {
    if b != [] {
      GetFalsy(w, b[1..]);
    }
  }

  /** Once a step reaches a missing or falsy node, the read yields that node. */
  lemma GetStopsAtFalsy(v: Value, keys: seq<string>, i: nat)
    requires i <= |keys| && !Truthy(GetIn(v, keys[..i]))
    ensures GetIn(v, keys) == GetIn(v, keys[..i])
  {
    assert keys == keys[..i] + keys[i..];
    GetAppend(v, keys[..i], keys[i..]);
    GetFalsy(GetIn(v, keys[..i]), keys[i..]);
  }

  /** `getConfig(key)` after `setConfig(key, x)` is `x` when every truthy
      node before the last key is an object. */
  lemma GetConfigAfterSetConfig(config: Value, key: string, x: Value)
    requires var ks := Split(key, '.'); Open(config, ks[..|ks| - 1])
    ensures GetConfig(SetConfig(config, key, x), key) == x
  {
    var ks := Split(key, '.');
    GetAfterSet(config, ks[..|ks| - 1], ks[|ks| - 1], x);
    assert ks[..|ks| - 1] + [ks[|ks| - 1]] == ks;
  }

  // ---------------------------------------------------------------------------
  // The initial tree.

  /** Base points per collected item. */
  const PointsPerItem: map<string, int> := map["pen" := 10, "cup" := 15, "book" := 20]

  /** The key of phase `p` in the phase table. */
  function PhaseKey(p: int): string
    requires 1 <= p <= 5
  {
    ["1", "2", "3", "4", "5"][p - 1]
  }

  function Phase(target: real, time: real): Value {
    Obj(map["targetScore" := Num(target), "timeLimit" := Num(time)])
  }

  const Game: Value := Obj(map[
    "DEFAULT_TIME" := Num(60.0),
    "POINTS_PER_ITEM" := Obj(map["pen" := Num(10.0), "cup" := Num(15.0), "book" := Num(20.0)]),
    "PHASES" := Phases])

  const InitialConfig: Value := Obj(map[
    "API_BASE_URL" := Str("http://localhost:3001/api"),
    "GAME" := Game,
    "AUDIO" := Obj(map["enabled" := Bool(true), "volume" := Num(0.5)]),
    "STORAGE_KEYS" := Obj(map["USER_DATA" := Str("gameUserData"), "GAME_SESSION" := Str("gameSession"),
                              "AUDIO_SETTINGS" := Str("audioSettings")]),
    "MESSAGES" := Obj(map[
      "LOGIN_SUCCESS" := Str("Login realizado com sucesso!"),
      "LOGIN_ERROR" := Str("Erro ao fazer login. Tente novamente."),
      "GAME_START" := Str("Jogo iniciado! Boa sorte!"),
      "GAME_COMPLETE" := Str("Parab\U{e9}ns! Voc\U{ea} completou a fase!"),
      "GAME_FAILED" := Str("Que pena! Tente novamente!"),
      "PURCHASE_SUCCESS" := Str("Item comprado com sucesso!"),
      "PURCHASE_ERROR" := Str("Erro ao comprar item. Verifique seu saldo."),
      "NETWORK_ERROR" := Str("Erro de conex\U{e3}o. Verifique sua internet.")])])

  lemma GetSteps3(v: Value, a: string, b: string, c: string)
    ensures GetIn(v, [a, b, c]) == Step(Step(Step(v, a), b), c)
  {
    assert [a, b, c][1..] == [b, c] && [b, c][1..] == [c] && [c][1..] == [];
    var w := Step(Step(v, a), b);
    assert GetIn(v, [a, b, c]) == GetIn(Step(v, a), [b, c]);
    assert GetIn(Step(v, a), [b, c]) == GetIn(w, [c]);
    assert GetIn(w, [c]) == GetIn(Step(w, c), []);
  }

  lemma GetSteps4(v: Value, a: string, b: string, c: string, d: string)
    ensures GetIn(v, [a, b, c, d]) == Step(Step(Step(Step(v, a), b), c), d)
  {
    assert [a, b, c, d][1..] == [b, c, d];
    GetSteps3(Step(v, a), b, c, d);
  }

  lemma GameInTree()
    ensures Step(InitialConfig, "GAME") == Game
  {
  }

  /** The tree holds the point table: pen 10, cup 15, book 20. */
  lemma PointsInTree(k: string)
    requires k in PointsPerItem
    ensures GetIn(InitialConfig, ["GAME", "POINTS_PER_ITEM", k]) == Num(PointsPerItem[k] as real)
  {
    GetSteps3(InitialConfig, "GAME", "POINTS_PER_ITEM", k);
    GameInTree();
    PointsTableInGame();
  }

  lemma PointsTableInGame()
    ensures Step(Game, "POINTS_PER_ITEM") == Obj(map["pen" := Num(10.0), "cup" := Num(15.0), "book" := Num(20.0)])
  {
  }

  /** The phase table of the tree. */
  const Phases: Value := Obj(map[
    "1" := Phase(100.0, 60.0), "2" := Phase(200.0, 90.0), "3" := Phase(300.0, 120.0),
    "4" := Phase(400.0, 150.0), "5" := Phase(500.0, 180.0)])

  lemma PhasesInGame()
    ensures Step(Game, "PHASES") == Phases
  {
  }

  /** Every phase's target in the tree is the server's `phase * 100`. */
  lemma PhaseTargetsAgree(p: int)
    requires 1 <= p <= 5
    ensures GetIn(InitialConfig, ["GAME", "PHASES", PhaseKey(p), "targetScore"]) == Num(GameController.TargetScoreFor(p) as real)
  {
    GetSteps4(InitialConfig, "GAME", "PHASES", PhaseKey(p), "targetScore");
    GameInTree();
    PhasesInGame();
    var entry := Step(Phases, PhaseKey(p));
    if p == 1 { assert entry == Phase(100.0, 60.0); }
    else if p == 2 { assert entry == Phase(200.0, 90.0); }
    else if p == 3 { assert entry == Phase(300.0, 120.0); }
    else if p == 4 { assert entry == Phase(400.0, 150.0); }
    else { assert entry == Phase(500.0, 180.0); }
  }

  /** The tree the page holds; `Set` replaces it by the written tree. */
  class Settings {
    var config: Value

    constructor ()
      ensures config == InitialConfig
    {
      config := InitialConfig;
    }

    function Get(key: string): Value
      reads this
    {
      GetConfig(config, key)
    }

    method Set(key: string, value: Value)
      modifies this
      ensures config == SetConfig(old(config), key, value)
      ensures Open(old(config), Split(key, '.')[..|Split(key, '.')| - 1]) ==> Get(key) == value
    {
      config := SetConfig(config, key, value);
      if Open(old(config), Split(key, '.')[..|Split(key, '.')| - 1]) {
        GetConfigAfterSetConfig(old(config), key, value);
      }
    }
  }
}
