/**
 * code/chapter-02/registry.py: the Khronos OpenGL registry (gl.xml) read
 * into name-keyed tables, and `get_api`, which tags the enums and commands
 * that the features and vendor extensions selected for an api, version and
 * profile require, then returns the tagged entries.
 *
 * XML elements are records holding the attributes and children the parser
 * reads; an absent attribute is None. The `supported` regular expression is
 * matched by an opaque predicate `reMatch(pattern, text)` (Python's
 * `re.match`, anchored at the start of the text).
 */
module GlRegistry {

  import opened Wrappers
  import opened PyDict

  /** A table key: the bare name, or the pair (name, api) for an element with an `api` attribute. */
  datatype Key = Name(name: string) | Scoped(name: string, api: string)

  function KeyOf(name: string, api: Option<string>): (k: Key)
    ensures k.name == name
    ensures k.Scoped? <==> api.Some?
  {
    if api.Some? then Scoped(name, api.value) else Name(name)
  }

  /** An `<enum>` of `enums/enum`. */
  datatype EnumElement = EnumElement(name: string, api: Option<string>)

  /** A `<command>` of `commands/command`: its name attribute, else the text of `proto/name`. */
  datatype CommandElement = CommandElement(nameAttr: Option<string>, protoName: string, api: Option<string>)

  /** A `<require>` or `<remove>` block with the names of the enums and commands it lists. */
  datatype Block = Block(api: Option<string>, profile: Option<string>, enums: seq<string>, commands: seq<string>)

  /** A `<feature>` or an `<extension>`. */
  datatype Feature = Feature(
    name: string, api: Option<string>, number: Option<string>, supported: Option<string>,
    requireBlocks: seq<Block>, removeBlocks: seq<Block>)

  datatype Document = Document(
    enums: seq<EnumElement>, commands: seq<CommandElement>,
    features: seq<Feature>, extensions: seq<Feature>)

  /**
   * The exceptions the code lets escape: a missing table key, `None`
   * compared with a string or compiled as a pattern, and `startswith` on a
   * tuple key.
   */
  datatype Error = KeyError(key: Key) | TypeError | AttributeError

  /** Python's `<=` on strings: lexicographic by code point, a prefix first. */
  predicate StrLe(a: string, b: string)
  {
    if a == [] then true
    else if b == [] then false
    else if a[0] != b[0] then a[0] < b[0]
    else StrLe(a[1..], b[1..])
  }

  /** Versions are compared as text: "4.10" would come before "4.6". */
  lemma VersionOrderIsTextual()
    ensures StrLe("4.10", "4.6") && !StrLe("4.6", "4.10")
    ensures StrLe("10.0", "9.0")
  {
    assert "4.10"[3..] == "0" && "4.6"[3..] == "";
  }

  predicate StartsWith(s: string, prefix: string)
  {
    |prefix| <= |s| && s[..|prefix|] == prefix
  }

  /** `"GL_%s_" % vendor`. */
  function Prefix(vendor: string): (p: string)
    ensures StartsWith(p, "GL_") && |p| == |vendor| + 4 && p[|p| - 1] == '_'
  {
    "GL_" + vendor + "_"
  }

  // ----------------------------------------------------------------------
  // Parsing
  // ----------------------------------------------------------------------

  // EnumPairs, CommandPairs and FeaturePairs have the same shape: each pairs
  // the elements of one parse loop with their keys, in document order; they
  // differ in the element type and in where the name comes from.

  function EnumPairs(es: seq<EnumElement>): (ps: seq<(Key, EnumElement)>)
    ensures |ps| == |es|
    ensures forall i :: 0 <= i < |es| ==> ps[i] == (KeyOf(es[i].name, es[i].api), es[i])
  {
    if es == [] then [] else [(KeyOf(es[0].name, es[0].api), es[0])] + EnumPairs(es[1..])
  }

  function CommandName(c: CommandElement): string
  {
    if c.nameAttr.Some? then c.nameAttr.value else c.protoName
  }

  function CommandPairs(cs: seq<CommandElement>): (ps: seq<(Key, CommandElement)>)
    ensures |ps| == |cs|
    ensures forall i :: 0 <= i < |cs| ==> ps[i] == (KeyOf(CommandName(cs[i]), cs[i].api), cs[i])
  {
    if cs == [] then [] else [(KeyOf(CommandName(cs[0]), cs[0].api), cs[0])] + CommandPairs(cs[1..])
  }

  function FeaturePairs(fs: seq<Feature>): (ps: seq<(Key, Feature)>)
    ensures |ps| == |fs|
    ensures forall i :: 0 <= i < |fs| ==> ps[i] == (KeyOf(fs[i].name, fs[i].api), fs[i])
  {
    if fs == [] then [] else [(KeyOf(fs[0].name, fs[0].api), fs[0])] + FeaturePairs(fs[1..])
  }

  /**
   * Parsing keys an element with an `api` attribute by (name, api) and any
   * other by its name; a later element with the same key replaces the
   * earlier one.
   */
  lemma ParseKeys(es: seq<EnumElement>, i: nat)
    requires i < |es|
    requires forall j :: i < j < |es| ==> KeyOf(es[j].name, es[j].api) != KeyOf(es[i].name, es[i].api)
    ensures es[i].api.None? ==> Get(PutAll([], EnumPairs(es)), Name(es[i].name)) == Some(es[i])
    ensures es[i].api.Some? ==> Get(PutAll([], EnumPairs(es)), Scoped(es[i].name, es[i].api.value)) == Some(es[i])
  {
    PutAllLast([], EnumPairs(es), i);
  }

  // ----------------------------------------------------------------------
  // Selection of features and extensions
  // ----------------------------------------------------------------------

  /** `match(element, api, profile)`. */
  predicate Match(b: Block, api: string, profile: Option<string>)
  {
    if b.api.Some? && api != b.api.value then false
    else if b.profile.Some? && profile != Some(b.profile.value) then false
    else true
  }

  /**
   * A block is skipped exactly when it names another api or another profile;
   * a block naming neither always applies.
   */
  lemma MatchIff(b: Block, api: string, profile: Option<string>)
    ensures !Match(b, api, profile) <==>
      (b.api.Some? && b.api.value != api) || (b.profile.Some? && profile != Some(b.profile.value))
    ensures b.api.None? && b.profile.None? ==> Match(b, api, profile)
  {
  }

  /** The core features of `api` whose number is at most `version`, in table order. */
  function SelectCore(fs: Dict<Key, Feature>, api: string, version: string): (r: Result<seq<Feature>, Error>)
    decreases |fs|
  {
    if fs == [] then Ok([])
    else
      var f := fs[0].1;
      if f.api == Some(api) && f.number.None? then Err(TypeError)
      else
        var rest := SelectCore(fs[1..], api, version);
        if rest.Err? then rest
        else if f.api == Some(api) && StrLe(f.number.value, version) then Ok([f] + rest.value)
        else rest
  }

  /**
   * A feature is selected exactly when its api is the requested one and its
   * number is at most the version as a string; selection fails only on a
   * feature of the api without a number.
   */
  lemma {:induction false} SelectCoreExact(fs: Dict<Key, Feature>, api: string, version: string)
    ensures SelectCore(fs, api, version).Err? <==>
      exists i :: 0 <= i < |fs| && fs[i].1.api == Some(api) && fs[i].1.number.None?
    ensures SelectCore(fs, api, version).Ok? ==> forall f ::
      f in SelectCore(fs, api, version).value <==>
      (exists i :: 0 <= i < |fs| && fs[i].1 == f) && f.api == Some(api) && StrLe(f.number.value, version)
    decreases |fs|
  {
    if fs != [] {
      SelectCoreExact(fs[1..], api, version);
      assert forall i :: 1 <= i < |fs| ==> fs[i] == fs[1..][i - 1];
      if SelectCore(fs, api, version).Ok? {
        forall f
          ensures f in SelectCore(fs, api, version).value <==>
            (exists i :: 0 <= i < |fs| && fs[i].1 == f) && f.api == Some(api) && StrLe(f.number.value, version)
        {
          if (exists i :: 0 <= i < |fs| && fs[i].1 == f) && f.api == Some(api) && StrLe(f.number.value, version) {
            var i :| 0 <= i < |fs| && fs[i].1 == f;
            if i > 0 { assert fs[1..][i - 1].1 == f; }
          }
        }
      }
    }
  }

  /** The extensions of one vendor prefix whose `supported` pattern matches the api, as `get_extension` collects them. */
  function VendorExtensions(xs: Dict<Key, Feature>, prefix: string, api: string,
                            reMatch: (string, string) -> bool): (r: Result<Dict<Key, Feature>, Error>)
    decreases |xs|
  {
    if xs == [] then Ok([])
    else
      var (k, x) := xs[0];
      if !k.Name? then Err(AttributeError)
      else if !StartsWith(k.name, prefix) then VendorExtensions(xs[1..], prefix, api, reMatch)
      else if x.supported.None? then Err(TypeError)
      else
        var rest := VendorExtensions(xs[1..], prefix, api, reMatch);
        if rest.Err? then rest
        else if reMatch(x.supported.value, api) then Ok([(k, x)] + rest.value)
        else rest
  }

  /**
   * `get_extension` returns exactly the entries whose name starts with the
   * prefix and whose `supported` pattern matches the api, in table order.
   */
  lemma {:induction false} VendorExtensionsExact(xs: Dict<Key, Feature>, prefix: string, api: string,
                                                 reMatch: (string, string) -> bool)
    requires VendorExtensions(xs, prefix, api, reMatch).Ok?
    ensures forall e :: e in VendorExtensions(xs, prefix, api, reMatch).value <==>
      e in xs && e.0.Name? && StartsWith(e.0.name, prefix) &&
      e.1.supported.Some? && reMatch(e.1.supported.value, api)
    decreases |xs|
  {
    if xs != [] {
      var (k, x) := xs[0];
      if k.Name? && (!StartsWith(k.name, prefix) || x.supported.Some?) {
        VendorExtensionsExact(xs[1..], prefix, api, reMatch);
        assert xs == [xs[0]] + xs[1..];
      }
    }
  }

  /** Every vendor's extensions, vendor by vendor. */
  function AllVendors(xs: Dict<Key, Feature>, vendors: seq<string>, api: string,
                      reMatch: (string, string) -> bool): (r: Result<seq<Feature>, Error>)
    decreases |vendors|
  {
    if vendors == [] then Ok([])
    else
      var here := VendorExtensions(xs, Prefix(vendors[0]), api, reMatch);
      if here.Err? then Err(here.error)
      else
        var rest := AllVendors(xs, vendors[1..], api, reMatch);
        if rest.Err? then rest else Ok(Values(here.value) + rest.value)
  }

  /** The features `get_api` processes: the selected core features, then the vendor extensions. */
  function Selected(fs: Dict<Key, Feature>, xs: Dict<Key, Feature>, api: string, version: string,
                    vendors: seq<string>, reMatch: (string, string) -> bool): (r: Result<seq<Feature>, Error>)
    ensures r.Ok? ==> (SelectCore(fs, api, version).Ok? && AllVendors(xs, vendors, api, reMatch).Ok? &&
      r.value == SelectCore(fs, api, version).value + AllVendors(xs, vendors, api, reMatch).value)
  {
    var core := SelectCore(fs, api, version);
    if core.Err? then core
    else
      var ext := AllVendors(xs, vendors, api, reMatch);
      if ext.Err? then ext else Ok(core.value + ext.value)
  }

  // ----------------------------------------------------------------------
  // Tagging
  // ----------------------------------------------------------------------

  datatype Table = Enums | Commands

  /** One assignment `self.<table>[name].required = value`. */
  datatype Action = Tag(table: Table, name: string, required: bool)

  function Tags(table: Table, names: seq<string>, required: bool): (acts: seq<Action>)
    ensures |acts| == |names|
    ensures forall i :: 0 <= i < |names| ==> acts[i] == Tag(table, names[i], required)
  {
    if names == [] then [] else [Tag(table, names[0], required)] + Tags(table, names[1..], required)
  }

  /** A block's assignments: its enums, then its commands; none if it does not match. */
  function BlockActions(b: Block, required: bool, api: string, profile: Option<string>): seq<Action>
  {
    if Match(b, api, profile) then Tags(Enums, b.enums, required) + Tags(Commands, b.commands, required) else []
  }

  function BlocksActions(bs: seq<Block>, required: bool, api: string, profile: Option<string>): seq<Action>
  {
    if bs == [] then [] else BlockActions(bs[0], required, api, profile) + BlocksActions(bs[1..], required, api, profile)
  }

  /** A feature's assignments: all its `<require>` blocks, then all its `<remove>` blocks. */
  function FeatureActions(f: Feature, api: string, profile: Option<string>): seq<Action>
  {
    BlocksActions(f.requireBlocks, true, api, profile) + BlocksActions(f.removeBlocks, false, api, profile)
  }

  function FeaturesActions(fs: seq<Feature>, api: string, profile: Option<string>): seq<Action>
  {
    if fs == [] then [] else FeatureActions(fs[0], api, profile) + FeaturesActions(fs[1..], api, profile)
  }

  /** The `required` flags of the enum and command tables. */
  datatype Flags = Flags(enums: map<Key, bool>, commands: map<Key, bool>)

  function FlagsOf(fl: Flags, t: Table): map<Key, bool>
  {
    if t == Enums then fl.enums else fl.commands
  }

  /** One assignment: the bare-name lookup raises KeyError when the table has no such key. */
  function Step(fl: Flags, a: Action): (r: Result<Flags, Error>)
    ensures r.Ok? ==> r.value.enums.Keys == fl.enums.Keys && r.value.commands.Keys == fl.commands.Keys
  {
    if Name(a.name) !in FlagsOf(fl, a.table) then Err(KeyError(Name(a.name)))
    else if a.table == Enums then Ok(fl.(enums := fl.enums[Name(a.name) := a.required]))
    else Ok(fl.(commands := fl.commands[Name(a.name) := a.required]))
  }

  /** The assignments in order, stopping at the first exception with the flags reached so far. */
  function Run(fl: Flags, acts: seq<Action>): (r: (Flags, Option<Error>))
    ensures r.0.enums.Keys == fl.enums.Keys && r.0.commands.Keys == fl.commands.Keys
    decreases |acts|
  {
    if acts == [] then (fl, None)
    else
      var s := Step(fl, acts[0]);
      if s.Err? then (fl, Some(s.error)) else Run(s.value, acts[1..])
  }

  lemma {:induction false} RunAppend(fl: Flags, a: seq<Action>, b: seq<Action>)
    ensures Run(fl, a + b) == if Run(fl, a).1.None? then Run(Run(fl, a).0, b) else Run(fl, a)
    decreases |a|
  {
    if a == [] {
      assert a + b == b;
    } else {
      assert (a + b)[0] == a[0] && (a + b)[1..] == a[1..] + b;
      var s := Step(fl, a[0]);
      if s.Ok? {
        RunAppend(s.value, a[1..], b);
      }
    }
  }

  /** The value of the last assignment to `name` in `table`, or `d` if there is none. */
  function LastValue(acts: seq<Action>, t: Table, name: string, d: bool): bool
    decreases |acts|
  {
    if acts == [] then d
    else LastValue(acts[1..], t, name, if acts[0].table == t && acts[0].name == name then acts[0].required else d)
  }

  lemma {:induction false} LastValueAppend(a: seq<Action>, b: seq<Action>, t: Table, name: string, d: bool)
    ensures LastValue(a + b, t, name, d) == LastValue(b, t, name, LastValue(a, t, name, d))
    decreases |a|
  {
    if a == [] {
      assert a + b == b;
    } else {
      assert (a + b)[0] == a[0] && (a + b)[1..] == a[1..] + b;
      LastValueAppend(a[1..], b, t, name,
        if a[0].table == t && a[0].name == name then a[0].required else d);
    }
  }

  /**
   * When no KeyError stops the run, the flag of a bare-name key is the value
   * of the last assignment to it, and a key scoped by api is never touched.
   */
  lemma {:induction false} RunLast(fl: Flags, acts: seq<Action>, t: Table, k: Key)
    requires k in FlagsOf(fl, t)
    requires Run(fl, acts).1.None?
    ensures FlagsOf(Run(fl, acts).0, t)[k] ==
      if k.Name? then LastValue(acts, t, k.name, FlagsOf(fl, t)[k]) else FlagsOf(fl, t)[k]
    decreases |acts|
  {
    if acts != [] {
      var s := Step(fl, acts[0]);
      RunLast(s.value, acts[1..], t, k);
    }
  }

  /** The bare-name key of the assignment exists in its table. */
  predicate Present(fl: Flags, a: Action)
  {
    Name(a.name) in FlagsOf(fl, a.table)
  }

  /**
   * The run raises exactly when some assignment names a key its table lacks,
   * and then it raises the KeyError of the first such assignment.
   */
  lemma RunRaises(fl: Flags, acts: seq<Action>)
    ensures Run(fl, acts).1.None? <==> forall i :: 0 <= i < |acts| ==> Present(fl, acts[i])
    ensures Run(fl, acts).1.Some? ==> exists i :: (0 <= i < |acts| && !Present(fl, acts[i]) &&
      Run(fl, acts).1.value == KeyError(Name(acts[i].name)) &&
      forall j :: 0 <= j < i ==> Present(fl, acts[j]))
  {
    RunSucceeds(fl, acts);
    RunFirstError(fl, acts);
  }

  /** An assignment that succeeds changes values, never keys, so it changes no later lookup's outcome. */
  lemma StepKeepsPresence(fl: Flags, a: Action, acts: seq<Action>)
    requires Step(fl, a).Ok?
    ensures forall i :: 0 <= i < |acts| ==> (Present(Step(fl, a).value, acts[i]) <==> Present(fl, acts[i]))
  {
    var s := Step(fl, a).value;
    assert FlagsOf(s, Enums).Keys == FlagsOf(fl, Enums).Keys;
    assert FlagsOf(s, Commands).Keys == FlagsOf(fl, Commands).Keys;
  }

  lemma {:induction false} RunSucceeds(fl: Flags, acts: seq<Action>)
    ensures Run(fl, acts).1.None? <==> forall i :: 0 <= i < |acts| ==> Present(fl, acts[i])
    decreases |acts|
  {
    if acts != [] {
      var s := Step(fl, acts[0]);
      if s.Ok? {
        RunSucceeds(s.value, acts[1..]);
        StepKeepsPresence(fl, acts[0], acts[1..]);
        assert forall i :: 1 <= i < |acts| ==> acts[i] == acts[1..][i - 1];
      }
    }
  }

  lemma {:induction false} RunFirstError(fl: Flags, acts: seq<Action>)
    ensures Run(fl, acts).1.Some? ==> exists i :: (0 <= i < |acts| && !Present(fl, acts[i]) &&
      Run(fl, acts).1.value == KeyError(Name(acts[i].name)) &&
      forall j :: 0 <= j < i ==> Present(fl, acts[j]))
    decreases |acts|
  {
    if acts != [] {
      var s := Step(fl, acts[0]);
      if s.Err? {
        assert !Present(fl, acts[0]);
      } else if Run(fl, acts).1.Some? {
        RunFirstError(s.value, acts[1..]);
        StepKeepsPresence(fl, acts[0], acts[1..]);
        var rest := acts[1..];
        var i :| 0 <= i < |rest| && !Present(s.value, rest[i]) &&
          Run(s.value, rest).1.value == KeyError(Name(rest[i].name)) &&
          forall j :: 0 <= j < i ==> Present(s.value, rest[j]);
        assert acts[i + 1] == rest[i];
        forall j | 0 <= j < i + 1
          ensures Present(fl, acts[j])
        {
          if j > 0 { assert acts[j] == rest[j - 1]; }
        }
      }
    }
  }

  /** Every assignment of a remove block clears. */
  lemma {:induction false} RemovesClear(bs: seq<Block>, api: string, profile: Option<string>)
    ensures forall i :: 0 <= i < |BlocksActions(bs, false, api, profile)| ==> !BlocksActions(bs, false, api, profile)[i].required
  {
    if bs != [] {
      RemovesClear(bs[1..], api, profile);
    }
  }

  lemma {:induction false} LastValueAllClear(acts: seq<Action>, t: Table, name: string, d: bool, i: nat)
    requires i < |acts| && acts[i] == Tag(t, name, false)
    requires forall j :: 0 <= j < |acts| ==> !acts[j].required
    ensures !LastValue(acts, t, name, d)
    decreases |acts|
  {
    if i == 0 {
      LastValueFalse(acts[1..], t, name);
    } else {
      LastValueAllClear(acts[1..], t, name,
        if acts[0].table == t && acts[0].name == name then acts[0].required else d, i - 1);
    }
  }

  lemma {:induction false} LastValueFalse(acts: seq<Action>, t: Table, name: string)
    requires forall j :: 0 <= j < |acts| ==> !acts[j].required
    ensures !LastValue(acts, t, name, false)
    decreases |acts|
  {
    if acts != [] {
      LastValueFalse(acts[1..], t, name);
    }
  }

  lemma {:induction false} BlocksListEnum(bs: seq<Block>, j: nat, required: bool, api: string,
                                          profile: Option<string>, name: string)
    requires j < |bs| && Match(bs[j], api, profile) && name in bs[j].enums
    ensures Tag(Enums, name, required) in BlocksActions(bs, required, api, profile)
  {
    if j > 0 {
      BlocksListEnum(bs[1..], j - 1, required, api, profile, name);
    } else {
      var k :| 0 <= k < |bs[0].enums| && bs[0].enums[k] == name;
      assert Tags(Enums, bs[0].enums, required)[k] == Tag(Enums, name, required);
    }
  }

  /**
   * Within one feature the remove blocks come after all require blocks: an
   * enum listed by a matching `<remove>` of the feature ends cleared,
   * whatever its require blocks say.
   */
  lemma RemoveWinsWithinFeature(f: Feature, api: string, profile: Option<string>, j: nat, name: string, d: bool)
    requires j < |f.removeBlocks| && Match(f.removeBlocks[j], api, profile) && name in f.removeBlocks[j].enums
    ensures !LastValue(FeatureActions(f, api, profile), Enums, name, d)
  {
    var req := BlocksActions(f.requireBlocks, true, api, profile);
    var rem := BlocksActions(f.removeBlocks, false, api, profile);
    LastValueAppend(req, rem, Enums, name, d);
    BlocksListEnum(f.removeBlocks, j, false, api, profile, name);
    RemovesClear(f.removeBlocks, api, profile);
    var i :| 0 <= i < |rem| && rem[i] == Tag(Enums, name, false);
    LastValueAllClear(rem, Enums, name, LastValue(req, Enums, name, d), i);
  }

  lemma {:induction false} FeaturesActionsAppend(a: seq<Feature>, b: seq<Feature>, api: string, profile: Option<string>)
    ensures FeaturesActions(a + b, api, profile) == FeaturesActions(a, api, profile) + FeaturesActions(b, api, profile)
  {
    if a == [] {
      assert a + b == b;
    } else {
      assert (a + b)[0] == a[0] && (a + b)[1..] == a[1..] + b;
      FeaturesActionsAppend(a[1..], b, api, profile);
      var head := FeatureActions(a[0], api, profile);
      var x, y := FeaturesActions(a[1..], api, profile), FeaturesActions(b, api, profile);
      assert FeaturesActions(a + b, api, profile) == head + (x + y);
      assert head + (x + y) == (head + x) + y;
    }
  }

  /**
   * Features are applied in order, so a later feature's assignments decide;
   * vendor extensions come after every core feature and so decide last.
   */
  lemma LaterFeaturesDecide(core: seq<Feature>, ext: seq<Feature>, api: string, profile: Option<string>,
                            t: Table, name: string, d: bool)
    ensures LastValue(FeaturesActions(core + ext, api, profile), t, name, d) ==
      LastValue(FeaturesActions(ext, api, profile), t, name, LastValue(FeaturesActions(core, api, profile), t, name, d))
  {
    FeaturesActionsAppend(core, ext, api, profile);
    LastValueAppend(FeaturesActions(core, api, profile), FeaturesActions(ext, api, profile), t, name, d);
  }

  // ----------------------------------------------------------------------
  // Result
  // ----------------------------------------------------------------------

  function AllClear<V>(d: Dict<Key, V>): (m: map<Key, bool>)
    ensures m.Keys == KeySet(d)
    ensures forall k :: k in m ==> !m[k]
  {
    map k | k in KeySet(d) :: false
  }

  /** `{name: value for name, value in table.items() if table[name].required}`. */
  function Filtered<V>(d: Dict<Key, V>, flags: map<Key, bool>): (r: Dict<Key, V>)
    requires KeySet(d) <= flags.Keys
  {
    if d == [] then []
    else
      assert KeySet(d[1..]) <= KeySet(d) by {
        forall k | k in KeySet(d[1..]) ensures k in KeySet(d) {
          var i :| 0 <= i < |d[1..]| && d[1..][i].0 == k;
          assert d[i + 1].0 == k;
        }
      }
      (if flags[d[0].0] then [d[0]] else []) + Filtered(d[1..], flags)
  }

  /** The returned table holds exactly the entries whose flag is set, with their keys. */
  lemma {:induction false} FilteredExact<V>(d: Dict<Key, V>, flags: map<Key, bool>)
    requires KeySet(d) <= flags.Keys
    ensures forall e :: e in Filtered(d, flags) <==> e in d && flags[e.0]
  {
    if d != [] {
      assert KeySet(d[1..]) <= KeySet(d) by {
        forall k | k in KeySet(d[1..]) ensures k in KeySet(d) {
          var i :| 0 <= i < |d[1..]| && d[1..][i].0 == k;
          assert d[i + 1].0 == k;
        }
      }
      FilteredExact(d[1..], flags);
      assert d == [d[0]] + d[1..];
    }
  }

  /**
   * `get_api` as a function of the tables alone: the flags it leaves and its
   * result. It starts from cleared flags, so nothing depends on an earlier
   * call.
   */
  function GetApiSpec(enums: Dict<Key, EnumElement>, commands: Dict<Key, CommandElement>,
                      features: Dict<Key, Feature>, extensions: Dict<Key, Feature>,
                      api: string, version: string, profile: Option<string>, vendors: seq<string>,
                      reMatch: (string, string) -> bool)
    : (r: (Flags, Result<(Dict<Key, EnumElement>, Dict<Key, CommandElement>), Error>))
    ensures r.0.enums.Keys == KeySet(enums) && r.0.commands.Keys == KeySet(commands)
  {
    var start := Flags(AllClear(enums), AllClear(commands));
    var sel := Selected(features, extensions, api, version, vendors, reMatch);
    if sel.Err? then (start, Err(sel.error))
    else
      var (fl, err) := Run(start, FeaturesActions(sel.value, api, profile));
      if err.Some? then (fl, Err(err.value))
      else (fl, Ok((Filtered(enums, fl.enums), Filtered(commands, fl.commands))))
  }

  /**
   * Starting from cleared flags, a run without KeyError leaves a flag set
   * exactly on the bare-name keys whose last assignment in that table
   * requires them; a key (name, api) is never set.
   */
  lemma TableFlags(enums: Dict<Key, EnumElement>, commands: Dict<Key, CommandElement>, acts: seq<Action>, t: Table)
    requires Run(Flags(AllClear(enums), AllClear(commands)), acts).1.None?
    ensures forall k :: k in FlagsOf(Flags(AllClear(enums), AllClear(commands)), t) ==>
      (FlagsOf(Run(Flags(AllClear(enums), AllClear(commands)), acts).0, t)[k] <==>
       k.Name? && LastValue(acts, t, k.name, false))
  {
    var start := Flags(AllClear(enums), AllClear(commands));
    forall k | k in FlagsOf(start, t)
      ensures FlagsOf(Run(start, acts).0, t)[k] <==> k.Name? && LastValue(acts, t, k.name, false)
    {
      assert !FlagsOf(start, t)[k];
      RunLast(start, acts, t, k);
    }
  }

  /**
   * A successful `get_api` returns exactly the enums, and exactly the
   * commands, keyed by a bare name whose last assignment over the selected
   * features requires them; an entry keyed by (name, api) is never returned.
   */
  lemma GetApiResult(enums: Dict<Key, EnumElement>, commands: Dict<Key, CommandElement>,
                     features: Dict<Key, Feature>, extensions: Dict<Key, Feature>,
                     api: string, version: string, profile: Option<string>, vendors: seq<string>,
                     reMatch: (string, string) -> bool, e: (Key, EnumElement), c: (Key, CommandElement))
    requires GetApiSpec(enums, commands, features, extensions, api, version, profile, vendors, reMatch).1.Ok?
    ensures Selected(features, extensions, api, version, vendors, reMatch).Ok?
    ensures e in GetApiSpec(enums, commands, features, extensions, api, version, profile, vendors, reMatch).1.value.0
      <==> (e in enums && e.0.Name? &&
        LastValue(FeaturesActions(Selected(features, extensions, api, version, vendors, reMatch).value, api, profile),
                  Enums, e.0.name, false))
    ensures c in GetApiSpec(enums, commands, features, extensions, api, version, profile, vendors, reMatch).1.value.1
      <==> (c in commands && c.0.Name? &&
        LastValue(FeaturesActions(Selected(features, extensions, api, version, vendors, reMatch).value, api, profile),
                  Commands, c.0.name, false))
  {
    var start := Flags(AllClear(enums), AllClear(commands));
    var acts := FeaturesActions(Selected(features, extensions, api, version, vendors, reMatch).value, api, profile);
    assert Run(start, acts).1.None?;
    var fl := Run(start, acts).0;
    assert GetApiSpec(enums, commands, features, extensions, api, version, profile, vendors, reMatch).1.value
      == (Filtered(enums, fl.enums), Filtered(commands, fl.commands));
    FilteredExact(enums, fl.enums);
    FilteredExact(commands, fl.commands);
    TableFlags(enums, commands, acts, Enums);
    TableFlags(enums, commands, acts, Commands);
    if e in enums {
      var i :| 0 <= i < |enums| && enums[i] == e;
      assert e.0 in FlagsOf(start, Enums);
    }
    if c in commands {
      var i :| 0 <= i < |commands| && commands[i] == c;
      assert c.0 in FlagsOf(start, Commands);
    }
  }

  // ----------------------------------------------------------------------
  // The registry object
  // ----------------------------------------------------------------------

  lemma RunFeaturesStep(fl: Flags, fs: seq<Feature>, i: nat, api: string, profile: Option<string>)
    requires i < |fs|
    ensures Run(fl, FeaturesActions(fs[i..], api, profile)) ==
      var head := Run(fl, FeatureActions(fs[i], api, profile));
      if head.1.Some? then head else Run(head.0, FeaturesActions(fs[i + 1..], api, profile))
  {
    assert fs[i..][0] == fs[i] && fs[i..][1..] == fs[i + 1..];
    RunAppend(fl, FeatureActions(fs[i], api, profile), FeaturesActions(fs[i + 1..], api, profile));
  }

  lemma RunBlocksStep(fl: Flags, bs: seq<Block>, i: nat, required: bool, api: string, profile: Option<string>)
    requires i < |bs|
    ensures Run(fl, BlocksActions(bs[i..], required, api, profile)) ==
      var head := Run(fl, BlockActions(bs[i], required, api, profile));
      if head.1.Some? then head else Run(head.0, BlocksActions(bs[i + 1..], required, api, profile))
  {
    assert bs[i..][0] == bs[i] && bs[i..][1..] == bs[i + 1..];
    RunAppend(fl, BlockActions(bs[i], required, api, profile), BlocksActions(bs[i + 1..], required, api, profile));
  }

  /** `Prefix` of the text `"%s" % vendor` gives for an optional vendor: None prints as "None". */
  function VendorText(vendor: Option<string>): (t: string)
    ensures vendor.Some? ==> t == vendor.value
    ensures vendor.None? ==> t == "None"
  {
    if vendor.Some? then vendor.value else "None"
  }

  /** A partial result `acc` followed by the result of the remaining work. */
  function Then<T>(acc: seq<T>, r: Result<seq<T>, Error>): Result<seq<T>, Error>
  {
    if r.Err? then r else Ok(acc + r.value)
  }

  lemma ThenEmpty<T>(r: Result<seq<T>, Error>)
    ensures Then([], r) == r
  {
    if r.Ok? {
      assert [] + r.value == r.value;
    }
  }

  lemma ThenAssoc<T>(acc: seq<T>, x: seq<T>, r: Result<seq<T>, Error>)
    ensures Then(acc, Then(x, r)) == Then(acc + x, r)
  {
    if r.Ok? {
      assert acc + (x + r.value) == (acc + x) + r.value;
    }
  }

  /** The loop `for k, v in pairs: d[k] = Node(v)` that fills one table. */
  method Fill<V>(pairs: seq<(Key, V)>) returns (d: Dict<Key, V>)
    ensures d == PutAll([], pairs)
    ensures UniqueKeys(d)
  {
    d := [];
    var i := 0;
    while i < |pairs|
      invariant 0 <= i <= |pairs|
      invariant UniqueKeys(d)
      invariant PutAll(d, pairs[i..]) == PutAll([], pairs)
    {
      assert pairs[i..][0] == pairs[i] && pairs[i..][1..] == pairs[i + 1..];
      PutSpec(d, pairs[i].0, pairs[i].1);
      d := Put(d, pairs[i].0, pairs[i].1);
      i := i + 1;
    }
    assert pairs[i..] == [];
  }

  /** The loop `for item in table.values(): item.reset()` on one table's flags. */
  method Cleared<V>(d: Dict<Key, V>, flags: map<Key, bool>) returns (r: map<Key, bool>)
    requires flags.Keys == KeySet(d)
    ensures r == AllClear(d)
  {
    r := flags;
    var i := 0;
    while i < |d|
      invariant 0 <= i <= |d|
      invariant r.Keys == KeySet(d)
      invariant forall j :: 0 <= j < i ==> !r[d[j].0]
      invariant forall k :: k in r && k !in KeySet(d[..i]) ==> r[k] == flags[k]
    {
      r := r[d[i].0 := false];
      i := i + 1;
    }
    forall k | k in r ensures !r[k] {
      var j :| 0 <= j < |d| && d[j].0 == k;
    }
  }

  /** The loop that keeps the entries whose flag is set, as `get_api` builds its result dictionaries. */
  method KeepRequired<V>(d: Dict<Key, V>, flags: map<Key, bool>) returns (r: Dict<Key, V>)
    requires KeySet(d) <= flags.Keys
    ensures r == Filtered(d, flags)
  {
    r := [];
    var i := 0;
    while i < |d|
      invariant 0 <= i <= |d|
      invariant KeySet(d[i..]) <= flags.Keys
      invariant Filtered(d, flags) == r + Filtered(d[i..], flags)
    {
      FilteredStep(d, i, flags);
      ghost var rest := Filtered(d[i + 1..], flags);
      if flags[d[i].0] {
        assert r + ([d[i]] + rest) == (r + [d[i]]) + rest;
        r := r + [d[i]];
      } else {
        assert [] + rest == rest;
      }
      i := i + 1;
    }
  }

  /** Filtering the entries from i on keeps entry i when its flag is set, then filters the rest. */
  lemma FilteredStep<V>(d: Dict<Key, V>, i: nat, flags: map<Key, bool>)
    requires i < |d| && KeySet(d[i..]) <= flags.Keys
    ensures d[i].0 in flags && KeySet(d[i + 1..]) <= flags.Keys
    ensures Filtered(d[i..], flags) ==
      (if flags[d[i].0] then [d[i]] else []) + Filtered(d[i + 1..], flags)
  {
    assert d[i..][0] == d[i] && d[i..][1..] == d[i + 1..];
    assert KeySet(d[i + 1..]) <= flags.Keys by {
      forall k | k in KeySet(d[i + 1..]) ensures k in flags {
        var j :| 0 <= j < |d[i + 1..]| && d[i + 1..][j].0 == k;
        assert d[i..][j + 1].0 == k;
      }
    }
  }

  class Registry {
    const enums: Dict<Key, EnumElement>
    const commands: Dict<Key, CommandElement>
    const features: Dict<Key, Feature>
    const extensions: Dict<Key, Feature>
    /** The `required` flags of the enum and command nodes. */
    var flags: Flags
    /** The `required` flags of the feature nodes, which only `reset` touches. */
    var featureRequired: map<Key, bool>

    ghost predicate Valid()
      reads this
    {
      UniqueKeys(enums) && UniqueKeys(commands) && UniqueKeys(features) && UniqueKeys(extensions) &&
      flags.enums.Keys == KeySet(enums) && flags.commands.Keys == KeySet(commands) &&
      featureRequired.Keys == KeySet(features)
    }

    /** `Registry().load(xml)`: the four tables, every node created unrequired. */
    constructor Load(doc: Document)
      ensures Valid()
      ensures enums == PutAll([], EnumPairs(doc.enums)) && commands == PutAll([], CommandPairs(doc.commands))
      ensures features == PutAll([], FeaturePairs(doc.features)) && extensions == PutAll([], FeaturePairs(doc.extensions))
      ensures flags == Flags(AllClear(enums), AllClear(commands)) && featureRequired == AllClear(features)
    {
      var e := Fill(EnumPairs(doc.enums));
      var c := Fill(CommandPairs(doc.commands));
      var f := Fill(FeaturePairs(doc.features));
      var x := Fill(FeaturePairs(doc.extensions));
      enums, commands, features, extensions := e, c, f, x;
      var ef, cf, ff := AllClear(e), AllClear(c), AllClear(f);
      assert ef.Keys == KeySet(e) && cf.Keys == KeySet(c) && ff.Keys == KeySet(f);
      flags := Flags(ef, cf);
      featureRequired := ff;
    }

    /** `reset`: every enum, command and feature node unrequired. */
    method Reset()
      requires Valid()
      modifies this
      ensures Valid()
      ensures flags == Flags(AllClear(enums), AllClear(commands)) && featureRequired == AllClear(features)
    {
      var e := Cleared(enums, flags.enums);
      var c := Cleared(commands, flags.commands);
      var f := Cleared(features, featureRequired);
      flags := Flags(e, c);
      featureRequired := f;
    }

    /** `self.<table>[name].required = required` for each name in turn. */
    method TagItems(t: Table, names: seq<string>, required: bool) returns (err: Option<Error>)
      modifies this
      ensures (flags, err) == Run(old(flags), Tags(t, names, required))
      ensures featureRequired == old(featureRequired)
    {
      var acts := Tags(t, names, required);
      err := None;
      var i := 0;
      while i < |names|
        invariant 0 <= i <= |names|
        invariant Run(old(flags), acts) == Run(flags, acts[i..])
        invariant featureRequired == old(featureRequired)
      {
        assert acts[i..][0] == Tag(t, names[i], required) && acts[i..][1..] == acts[i + 1..];
        var s := Step(flags, Tag(t, names[i], required));
        if s.Err? {
          err := Some(s.error);
          return;
        }
        flags := s.value;
        i := i + 1;
      }
      assert acts[i..] == [];
    }

    /** One `<require>` or `<remove>` block: skipped unless it matches, then its enums and its commands. */
    method TagBlock(b: Block, required: bool, api: string, profile: Option<string>) returns (err: Option<Error>)
      modifies this
      ensures (flags, err) == Run(old(flags), BlockActions(b, required, api, profile))
      ensures featureRequired == old(featureRequired)
    {
      if !Match(b, api, profile) {
        return None;
      }
      err := TagItems(Enums, b.enums, required);
      RunAppend(old(flags), Tags(Enums, b.enums, required), Tags(Commands, b.commands, required));
      if err.Some? {
        return;
      }
      err := TagItems(Commands, b.commands, required);
    }

    method TagBlocks(bs: seq<Block>, required: bool, api: string, profile: Option<string>) returns (err: Option<Error>)
      modifies this
      ensures (flags, err) == Run(old(flags), BlocksActions(bs, required, api, profile))
      ensures featureRequired == old(featureRequired)
    {
      err := None;
      var i := 0;
      while i < |bs|
        invariant 0 <= i <= |bs|
        invariant Run(old(flags), BlocksActions(bs, required, api, profile)) == Run(flags, BlocksActions(bs[i..], required, api, profile))
        invariant err.None?
        invariant featureRequired == old(featureRequired)
      {
        RunBlocksStep(flags, bs, i, required, api, profile);
        err := TagBlock(bs[i], required, api, profile);
        if err.Some? {
          return;
        }
        i := i + 1;
      }
      assert bs[i..] == [];
    }

    /** All `<require>` blocks of a feature, then all its `<remove>` blocks. */
    method TagFeature(f: Feature, api: string, profile: Option<string>) returns (err: Option<Error>)
      modifies this
      ensures (flags, err) == Run(old(flags), FeatureActions(f, api, profile))
      ensures featureRequired == old(featureRequired)
    {
      RunAppend(flags, BlocksActions(f.requireBlocks, true, api, profile), BlocksActions(f.removeBlocks, false, api, profile));
      err := TagBlocks(f.requireBlocks, true, api, profile);
      if err.Some? {
        return;
      }
      err := TagBlocks(f.removeBlocks, false, api, profile);
    }

    method TagFeatures(fs: seq<Feature>, api: string, profile: Option<string>) returns (err: Option<Error>)
      modifies this
      ensures (flags, err) == Run(old(flags), FeaturesActions(fs, api, profile))
      ensures featureRequired == old(featureRequired)
    {
      err := None;
      var i := 0;
      while i < |fs|
        invariant 0 <= i <= |fs|
        invariant Run(old(flags), FeaturesActions(fs, api, profile)) == Run(flags, FeaturesActions(fs[i..], api, profile))
        invariant err.None?
        invariant featureRequired == old(featureRequired)
      {
        RunFeaturesStep(flags, fs, i, api, profile);
        err := TagFeature(fs[i], api, profile);
        if err.Some? {
          return;
        }
        i := i + 1;
      }
      assert fs[i..] == [];
    }

    /** The core features of `api` up to `version`, in table order. */
    method CoreFeatures(api: string, version: string) returns (r: Result<seq<Feature>, Error>)
      ensures r == SelectCore(features, api, version)
    {
      var acc: seq<Feature> := [];
      var i := 0;
      assert features[i..] == features;
      ThenEmpty(SelectCore(features, api, version));
      while i < |features|
        invariant 0 <= i <= |features|
        invariant SelectCore(features, api, version) == Then(acc, SelectCore(features[i..], api, version))
      {
        var f := features[i].1;
        assert features[i..][0] == features[i] && features[i..][1..] == features[i + 1..];
        if f.api == Some(api) && f.number.None? {
          return Err(TypeError);
        }
        if f.api == Some(api) && StrLe(f.number.value, version) {
          ThenAssoc(acc, [f], SelectCore(features[i + 1..], api, version));
          acc := acc + [f];
        }
        i := i + 1;
      }
      assert features[i..] == [];
      assert acc + [] == acc;
      r := Ok(acc);
    }

    /** The extensions whose name starts with `prefix` and whose `supported` pattern matches `api`. */
    method CollectVendor(prefix: string, api: string, reMatch: (string, string) -> bool)
      returns (r: Result<Dict<Key, Feature>, Error>)
      ensures r == VendorExtensions(extensions, prefix, api, reMatch)
    {
      var acc: Dict<Key, Feature> := [];
      var i := 0;
      assert extensions[i..] == extensions;
      ThenEmpty(VendorExtensions(extensions, prefix, api, reMatch));
      while i < |extensions|
        invariant 0 <= i <= |extensions|
        invariant VendorExtensions(extensions, prefix, api, reMatch) == Then(acc, VendorExtensions(extensions[i..], prefix, api, reMatch))
      {
        var (k, x) := extensions[i];
        assert extensions[i..][0] == extensions[i] && extensions[i..][1..] == extensions[i + 1..];
        if !k.Name? {
          return Err(AttributeError);
        }
        if StartsWith(k.name, prefix) {
          if x.supported.None? {
            return Err(TypeError);
          }
          if reMatch(x.supported.value, api) {
            ThenAssoc(acc, [(k, x)], VendorExtensions(extensions[i + 1..], prefix, api, reMatch));
            acc := acc + [(k, x)];
          }
        }
        i := i + 1;
      }
      assert extensions[i..] == [];
      assert acc + [] == acc;
      r := Ok(acc);
    }

    /** `get_extension(api, vendor)`. */
    method GetExtension(api: string, vendor: Option<string>, reMatch: (string, string) -> bool)
      returns (r: Result<Dict<Key, Feature>, Error>)
      ensures r == VendorExtensions(extensions, Prefix(VendorText(vendor)), api, reMatch)
    {
      r := CollectVendor(Prefix(VendorText(vendor)), api, reMatch);
    }

    /** The extensions of each requested vendor, in vendor order. */
    method VendorFeatures(vendors: seq<string>, api: string, reMatch: (string, string) -> bool)
      returns (r: Result<seq<Feature>, Error>)
      ensures r == AllVendors(extensions, vendors, api, reMatch)
    {
      var acc: seq<Feature> := [];
      var j := 0;
      assert vendors[j..] == vendors;
      ThenEmpty(AllVendors(extensions, vendors, api, reMatch));
      while j < |vendors|
        invariant 0 <= j <= |vendors|
        invariant AllVendors(extensions, vendors, api, reMatch) == Then(acc, AllVendors(extensions, vendors[j..], api, reMatch))
      {
        assert vendors[j..][0] == vendors[j] && vendors[j..][1..] == vendors[j + 1..];
        var here := CollectVendor(Prefix(vendors[j]), api, reMatch);
        if here.Err? {
          return Err(here.error);
        }
        ThenAssoc(acc, Values(here.value), AllVendors(extensions, vendors[j + 1..], api, reMatch));
        acc := acc + Values(here.value);
        j := j + 1;
      }
      assert vendors[j..] == [];
      assert acc + [] == acc;
      r := Ok(acc);
    }

    /**
     * `get_api(api, version, profile, extensions)`: the flags and the result
     * are those of `GetApiSpec`, whatever an earlier call left behind.
     */
    method GetApi(api: string, version: string, profile: Option<string>, vendors: seq<string>,
                  reMatch: (string, string) -> bool)
      returns (r: Result<(Dict<Key, EnumElement>, Dict<Key, CommandElement>), Error>)
      requires Valid()
      modifies this
      ensures Valid()
      ensures (flags, r) == GetApiSpec(enums, commands, features, extensions, api, version, profile, vendors, reMatch)
      ensures featureRequired == AllClear(features)
    {
      Reset();
      var core := CoreFeatures(api, version);
      if core.Err? {
        return Err(core.error);
      }
      var ext := VendorFeatures(vendors, api, reMatch);
      if ext.Err? {
        return Err(ext.error);
      }
      var err := TagFeatures(core.value + ext.value, api, profile);
      if err.Some? {
        return Err(err.value);
      }
      var e := KeepRequired(enums, flags.enums);
      var c := KeepRequired(commands, flags.commands);
      r := Ok((e, c));
    }
  }
}
