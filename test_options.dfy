/**
 * The options of the test cases (testcommon/options.go): a map from names to values of any
 * type, built one option at a time and merged, with accessors that read a value as the type
 * the test expects.
 *
 * Go's `any` is the datatype `Any`; `Nil` is the nil interface, which is also what a missing
 * key reads as. `Other` stands for a value of any type not listed, carrying the text `%v`
 * prints for it. Maps are values here, so no option shares its map with another.
 */
module TestOptions {
  import opened GoLib

  datatype Any = Nil | BoolVal(b: bool) | StrVal(s: string) | StrSliceVal(ss: seq<string>) | IntVal(i: int) | Other(text: string)

  /** The text `fmt.Sprintf("%v", v)` gives for a value that is not a string. */
  function Render(v: Any): string {
    match v
    case Nil => "<nil>"
    case BoolVal(b) => if b then "true" else "false"
    case StrVal(s) => s
    case StrSliceVal(ss) => "[" + JoinStrings(ss, " ") + "]"
    case IntVal(i) => IntToString(i)
    case Other(text) => text
  }

  datatype Options = Options(config: map<string, Any>) {
    /** `Raw`: the stored value, and nil for a missing key. */
    function Raw(key: string): (v: Any)
      ensures key !in config ==> v == Nil
      ensures key in config ==> v == config[key]
    {
      if key in config then config[key] else Nil
    }

    /** `IsBool`: whether a bool is stored under `key`. */
    predicate IsBool(key: string) {
      Raw(key).BoolVal?
    }

    predicate IsStr(key: string) {
      Raw(key).StrVal?
    }

    predicate IsStrSlice(key: string) {
      Raw(key).StrSliceVal?
    }

    /** `Bool`: the stored bool; false when the key is missing or holds another type. */
    function Bool(key: string): (r: bool)
      ensures r <==> key in config && config[key] == BoolVal(true)
    {
      match Raw(key)
      case BoolVal(b) => b
      case _ => false
    }

    /** `Str`: the stored string; "" for a missing key or nil; any other value as `%v` prints it. */
    function Str(key: string): (r: string)
      ensures IsStr(key) ==> r == config[key].s
      ensures Raw(key) == Nil ==> r == ""
      ensures !IsStr(key) && Raw(key) != Nil ==> r == Render(config[key])
    {
      match Raw(key)
      case StrVal(s) => s
      case Nil => ""
      case v => Render(v)
    }

    /** `StrSlice`: the stored slice of strings; an empty slice when the key is missing or holds another type. */
    function StrSlice(key: string): (r: seq<string>)
      ensures IsStrSlice(key) ==> r == config[key].ss
      ensures !IsStrSlice(key) ==> r == []
    {
      match Raw(key)
      case StrSliceVal(ss) => ss
      case _ => []
    }
  }

  /** `NewOptions`: options holding `value` under `key`, and nothing else. */
  function NewOptions(key: string, value: Any): (r: Options)
    ensures key in r.config && r.config[key] == value
    ensures forall k :: k in r.config ==> k == key
  {
    Options(map[key := value])
  }

  /** The options merged in order: a key takes the value of the last option that has it. */
  function Merged(opts: seq<Options>): map<string, Any> {
    if |opts| == 0 then map[] else Merged(opts[..|opts| - 1]) + opts[|opts| - 1].config
  }

  /** The entries of `m` whose keys are in `keys`. */
  function Restrict(m: map<string, Any>, keys: set<string>): map<string, Any> {
    map k | k in m && k in keys :: m[k]
  }

  /** Copying one more entry of `m` extends the copied part by that entry. */
  lemma RestrictAdd(base: map<string, Any>, m: map<string, Any>, done: set<string>, k: string)
    requires k in m
    ensures (base + Restrict(m, done))[k := m[k]] == base + Restrict(m, done + {k})
  {
  }

  /**
   * `MergeOptions`: a fresh map filled from each option in turn, copying every entry of the
   * option in whatever order its map yields them.
   */
  method MergeOptions(opts: seq<Options>) returns (r: Options)
    ensures r.config == Merged(opts)
  {
    var config: map<string, Any> := map[];
    for i := 0 to |opts|
      invariant config == Merged(opts[..i])
    {
      var opt := opts[i];
      var rest := opt.config.Keys;
      while rest != {}
        invariant rest <= opt.config.Keys
        invariant config == Merged(opts[..i]) + Restrict(opt.config, opt.config.Keys - rest)
        decreases rest
      {
        var k :| k in rest;
        RestrictAdd(Merged(opts[..i]), opt.config, opt.config.Keys - rest, k);
        config := config[k := opt.config[k]];
        assert opt.config.Keys - (rest - {k}) == (opt.config.Keys - rest) + {k};
        rest := rest - {k};
      }
      assert Restrict(opt.config, opt.config.Keys) == opt.config;
      assert opts[..i + 1][..i] == opts[..i];
    }
    assert opts[..|opts|] == opts;
    r := Options(config);
  }

  // ---------------------------------------------------------------- properties

  /** A merge holds exactly the keys of the options merged. */
  lemma {:induction false} MergedKeys(opts: seq<Options>, key: string)
    ensures key in Merged(opts) <==> exists i :: 0 <= i < |opts| && key in opts[i].config
  {
    if |opts| > 0 {
      var init := opts[..|opts| - 1];
      MergedKeys(init, key);
      if key in Merged(init) {
        var i :| 0 <= i < |init| && key in init[i].config;
        assert opts[i] == init[i];
      }
      if exists i :: 0 <= i < |opts| && key in opts[i].config {
        var i :| 0 <= i < |opts| && key in opts[i].config;
        if i < |opts| - 1 {
          assert init[i] == opts[i];
        }
      }
    }
  }

  /** A key takes the value of the last option that has it: earlier values are overwritten. */
  lemma {:induction false} MergedLastWins(opts: seq<Options>, key: string, i: nat)
    requires i < |opts| && key in opts[i].config
    requires forall j :: i < j < |opts| ==> key !in opts[j].config
    ensures key in Merged(opts) && Merged(opts)[key] == opts[i].config[key]
  {
    var init := opts[..|opts| - 1];
    if i < |opts| - 1 {
      assert init[i] == opts[i];
      MergedLastWins(init, key, i);
    }
  }

  /** The accessors read back what `NewOptions` stored, each for its own type. */
  lemma NewOptionsReadBack(key: string, b: bool, s: string, ss: seq<string>)
    ensures NewOptions(key, BoolVal(b)).Bool(key) == b && NewOptions(key, BoolVal(b)).IsBool(key)
    ensures NewOptions(key, StrVal(s)).Str(key) == s && NewOptions(key, StrVal(s)).IsStr(key)
    ensures NewOptions(key, StrSliceVal(ss)).StrSlice(key) == ss && NewOptions(key, StrSliceVal(ss)).IsStrSlice(key)
  {
  }

  /** A key no option sets reads as false, "", and an empty slice. */
  lemma AbsentKey(opt: Options, key: string)
    requires key !in opt.config
    ensures !opt.Bool(key) && opt.Str(key) == "" && opt.StrSlice(key) == []
    ensures !opt.IsBool(key) && !opt.IsStr(key) && !opt.IsStrSlice(key)
  {
  }

  /** A value of another type: `Bool` is false and `StrSlice` empty, while `Str` prints it. */
  lemma WrongType(key: string)
    ensures !NewOptions(key, StrVal("yes")).Bool(key)
    ensures NewOptions(key, StrVal("yes")).StrSlice(key) == []
    ensures NewOptions(key, BoolVal(true)).Str(key) == "true"
    ensures NewOptions(key, StrSliceVal(["a", "b"])).Str(key) == "[a b]"
  {
    assert JoinStrings(["a", "b"], " ") == "a b";
  }

  /** Flags set by separate options are all seen in their merge, as the tests combine them, and no other flag is. */
  lemma MergedFlags(a: string, b: string, c: string)
    requires a != b && c != a && c != b
    ensures var m := Options(Merged([NewOptions(a, BoolVal(true)), NewOptions(b, BoolVal(true))]));
      m.Bool(a) && m.Bool(b) && !m.Bool(c)
  {
    var opts := [NewOptions(a, BoolVal(true)), NewOptions(b, BoolVal(true))];
    MergedLastWins(opts, a, 0);
    MergedLastWins(opts, b, 1);
    MergedKeys(opts, c);
  }
}
