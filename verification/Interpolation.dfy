/** Path interpolation of internal/host/config/parsers.go: substitution of the single
    values first, then one path per combination of the multi-valued variables. */
module Interpolation {
  import opened MapOrder
  import opened Strings
  import opened Template
  import opened Odometer

  type Env = map<string, string>

  /** The values of a colon-separated variable. */
  function Parts(env: Env, name: string): (parts: seq<string>)
    requires name in env
    ensures |parts| > 0
  {
    Split(env[name], ':')
  }

  predicate Multi(env: Env, name: string) {
    name in env && |Parts(env, name)| > 1
  }

  /** The first pass on one name: unbound and (unless first) multi-valued names stay. */
  function Single(env: Env, first: bool): string -> string {
    (name: string) =>
      if name !in env then Token(name)
      else if |Parts(env, name)| == 1 then env[name]
      else if first then Parts(env, name)[0]
      else Token(name)
  }

  /** The second pass on one name. */
  function Fill(choice: map<string, string>): string -> string {
    (name: string) => if name in choice then choice[name] else Token(name)
  }

  function Names(c: Cut): set<string> {
    match c
    case End(_) => {}
    case Var(_, name, rest) => {name} + Names(rest)
  }

  /** The multi-valued variables of a template. */
  function Vars(input: string, env: Env): set<string> {
    set name <- Names(Parse(input)) | Multi(env, name)
  }

  function Tilde(path: string, home: string, join: (string, string) -> string): string {
    if HasPrefix(path, "~/") then join(home, path[2..]) else path
  }

  function Home(env: Env): string {
    if "HOME" in env then env["HOME"] else ""
  }

  function Radix(order: seq<string>, env: Env): (rs: seq<nat>)
    requires forall name :: name in order ==> name in env
    ensures |rs| == |order| && forall i :: 0 <= i < |rs| ==> rs[i] == |Parts(env, order[i])| > 0
  {
    seq(|order|, i requires 0 <= i < |order| => |Parts(env, order[i])|)
  }

  function IndexIn(order: seq<string>, name: string): (i: nat)
    requires name in order
    ensures i < |order| && order[i] == name
  {
    if order[0] == name then 0 else 1 + IndexIn(order[1..], name)
  }

  /** Each variable at the value its digit selects. */
  function Choice(order: seq<string>, env: Env, ds: seq<nat>): map<string, string>
    requires forall name :: name in order ==> name in env
    requires Digits(ds, Radix(order, env))
  {
    map name | name in order :: Parts(env, name)[ds[IndexIn(order, name)]]
  }

  /** The text between the two passes. */
  function Between(input: string, env: Env, first: bool): string {
    Replace(Parse(input), Single(env, first))
  }

  /** What the second pass makes of the text between the passes. */
  function TextAt(input: string, env: Env, order: seq<string>, ds: seq<nat>): string
    requires forall name :: name in order ==> name in env
    requires Digits(ds, Radix(order, env))
  {
    Replace(Parse(Between(input, env, false)), Fill(Choice(order, env, ds)))
  }

  function PathAt(input: string, env: Env, join: (string, string) -> string, order: seq<string>, ds: seq<nat>): string
    requires forall name :: name in order ==> name in env
    requires Digits(ds, Radix(order, env))
  {
    Tilde(TextAt(input, env, order, ds), Home(env), join)
  }

  /** interpolateOptions: one path per number the odometer shows, for a given order. */
  function Options(input: string, env: Env, join: (string, string) -> string, order: seq<string>): (paths: seq<string>)
    requires forall name :: name in order ==> name in env
    ensures |paths| == Product(Radix(order, env))
  {
    seq(Product(Radix(order, env)),
        n requires 0 <= n < Product(Radix(order, env)) => PathAt(input, env, join, order, Of(n, Radix(order, env))))
  }

  function Interpolate(input: string, env: Env, join: (string, string) -> string): string {
    Tilde(Between(input, env, true), Home(env), join)
  }

  /** path is the text with a leading "~/" taken for the home directory, which is the empty
      path when HOME is not set; any other text is the path as it is. */
  ghost predicate Expanded(text: string, env: Env, join: (string, string) -> string, path: string) {
    && (forall rest :: text == "~/" + rest ==>
          path == if "HOME" in env then join(env["HOME"], rest) else join("", rest))
    && ((forall rest :: text != "~/" + rest) ==> path == text)
  }

  lemma TildeExpands(text: string, env: Env, join: (string, string) -> string)
    ensures Expanded(text, env, join, Tilde(text, Home(env), join))
  {
    forall rest | text == "~/" + rest
      ensures Tilde(text, Home(env), join) == if "HOME" in env then join(env["HOME"], rest) else join("", rest)
    {
      assert text[2..] == rest;
    }
    if HasPrefix(text, "~/") {
      assert text == "~/" + text[2..];
    }
  }

  /** Every path is the expansion of its substituted text. */
  lemma PathsExpand(input: string, env: Env, join: (string, string) -> string, order: seq<string>)
    requires forall name :: name in order ==> name in env
    ensures Expanded(Between(input, env, true), env, join, Interpolate(input, env, join))
    ensures forall ds :: Digits(ds, Radix(order, env)) ==>
              var all, n := Options(input, env, join, order), Value(ds, Radix(order, env));
              n < |all| && Expanded(TextAt(input, env, order, ds), env, join, all[n])
  {
    TildeExpands(Between(input, env, true), env, join);
    forall ds | Digits(ds, Radix(order, env))
      ensures var all, n := Options(input, env, join, order), Value(ds, Radix(order, env));
              n < |all| && Expanded(TextAt(input, env, order, ds), env, join, all[n])
    {
      OptionAt(input, env, join, order, ds);
      TildeExpands(TextAt(input, env, order, ds), env, join);
    }
  }

  // ----- the imperative program -----

  /** The variables found by the first pass, each with a fresh counter at zero. */
  ghost predicate FreshVars(vars: map<string, PathVariable>, names: set<string>, env: Env)
    reads vars.Values
  {
    && vars.Keys == names
    && (forall name :: name in vars ==> name in env && vars[name].values == Parts(env, name) && vars[name].current == 0)
    && (forall a, b :: a in vars && b in vars && a != b ==> vars[a] != vars[b])
  }

  /** The names among seen that the first pass keeps a counter for. */
  function Counted(seen: set<string>, env: Env, first: bool): set<string> {
    if first then {} else set name <- seen | Multi(env, name)
  }

  /** The callback of the first ReplaceAllStringFunc, which fills the map of variables. */
  method Found(name: string, env: Env, first: bool, vars: map<string, PathVariable>, ghost seen: set<string>)
    returns (sub: string, vars': map<string, PathVariable>)
    requires FreshVars(vars, Counted(seen, env, first), env)
    ensures sub == Single(env, first)(name)
    ensures FreshVars(vars', Counted(seen + {name}, env, first), env)
    ensures forall v :: v in vars'.Values ==> v in vars.Values || fresh(v)
  {
    vars' := vars;
    if name !in env {
      sub := Token(name);
    } else {
      var parts := Parts(env, name);
      if |parts| == 1 {
        sub := env[name];
      } else if first {
        sub := parts[0];
      } else {
        var v := new PathVariable(parts);
        vars' := vars[name := v];
        sub := Token(name);
      }
    }
  }

  /** The first pass has replaced everything before c, meeting the seen names. */
  ghost predicate Passing(input: string, f: string -> string, c: Cut, out: string, seen: set<string>) {
    out + Replace(c, f) == Replace(Parse(input), f) && seen + Names(c) == Names(Parse(input))
  }

  lemma PassOn(input: string, f: string -> string, c: Cut, out: string, seen: set<string>)
    requires Passing(input, f, c, out, seen) && c.Var?
    ensures Passing(input, f, c.rest, out + c.text + f(c.name), seen + {c.name})
  {
    Regroup(out, c.text, f(c.name), Replace(c.rest, f));
  }

  lemma Regroup(a: string, b: string, c: string, d: string)
    ensures a + (b + c + d) == (a + b + c) + d
  {}

  /** The first pass over the whole template. */
  method FirstPass(input: string, env: Env, first: bool) returns (out: string, vars: map<string, PathVariable>)
    ensures out == Between(input, env, first)
    ensures FreshVars(vars, Counted(Names(Parse(input)), env, first), env)
    ensures forall v :: v in vars.Values ==> fresh(v)
  {
    var c := Parse(input);
    out, vars := "", map[];
    ghost var seen: set<string> := {};
    while c.Var?
      invariant Passing(input, Single(env, first), c, out, seen)
      invariant FreshVars(vars, Counted(seen, env, first), env)
      invariant forall v :: v in vars.Values ==> fresh(v)
      decreases c
    {
      PassOn(input, Single(env, first), c, out, seen);
      var sub;
      sub, vars := Found(c.name, env, first, vars, seen);
      out, seen, c := out + c.text + sub, seen + {c.name}, c.rest;
    }
    assert seen + {} == seen;
    out := out + c.text;
  }

  /** util.MapValues: the counters in some order. */
  method MapValues(vars: map<string, PathVariable>, ghost names: set<string>, env: Env)
    returns (pvars: seq<PathVariable>, ghost order: seq<string>)
    requires FreshVars(vars, names, env)
    ensures Enumerates(order, names) && |pvars| == |order|
    ensures forall i :: 0 <= i < |order| ==> pvars[i] == vars[order[i]]
  {
    pvars, order := [], [];
    var todo := vars.Keys;
    while todo != {}
      invariant todo <= vars.Keys
      invariant Enumerates(order, vars.Keys - todo) && |pvars| == |order|
      invariant forall i :: 0 <= i < |order| ==> order[i] in vars && pvars[i] == vars[order[i]]
    {
      var name :| name in todo;
      pvars, order := pvars + [vars[name]], order + [name];
      todo := todo - {name};
    }
  }

  /** What the counters select now. */
  function Chosen(vars: map<string, PathVariable>): map<string, string>
    requires forall name :: name in vars ==> vars[name].current < |vars[name].values|
    reads vars.Values
  {
    map name | name in vars :: vars[name].values[vars[name].current]
  }

  /** pvars lists the counters of vars in the given order. */
  ghost predicate Listed(vars: map<string, PathVariable>, env: Env, pvars: seq<PathVariable>, order: seq<string>) {
    && Enumerates(order, vars.Keys) && |pvars| == |order|
    && (forall i :: 0 <= i < |order| ==> order[i] in vars && pvars[i] == vars[order[i]])
    && (forall name :: name in vars ==> name in env && vars[name].values == Parts(env, name))
    && Distinct(pvars)
  }

  lemma ListedRadix(vars: map<string, PathVariable>, env: Env, pvars: seq<PathVariable>, order: seq<string>)
    requires Listed(vars, env, pvars, order)
    ensures (forall name :: name in order ==> name in env) && Radices(pvars) == Radix(order, env)
  {}

  lemma ChosenIsChoice(vars: map<string, PathVariable>, env: Env, pvars: seq<PathVariable>, order: seq<string>)
    requires Listed(vars, env, pvars, order) && Digits(Currents(pvars), Radices(pvars))
    ensures forall name :: name in order ==> name in env
    ensures Radices(pvars) == Radix(order, env)
    ensures forall name :: name in vars ==> vars[name].current < |vars[name].values|
    ensures Chosen(vars) == Choice(order, env, Currents(pvars))
  {
    ListedRadix(vars, env, pvars, order);
    forall name | name in vars
      ensures vars[name].current < |vars[name].values|
      ensures name in order && vars[name] == pvars[IndexIn(order, name)]
    {
      assert name in order;
    }
  }

  /** The second pass, match by match. However the template was put together from tokens and
      texts that do not look like one, every token of a variable becomes the value that the
      counter selects, and nothing else changes. */
  method InterpolateStep(vars: map<string, PathVariable>, template: string) returns (s: string)
    requires forall name :: name in vars ==> vars[name].current < |vars[name].values|
    ensures s == Replace(Parse(template), Fill(Chosen(vars)))
    ensures forall c :: Scannable(c) && Render(c) == template ==> s == Replace(c, Fill(Chosen(vars)))
  {
    ghost var f := Fill(Chosen(vars));
    var c := Parse(template);
    s := "";
    while c.Var?
      invariant s + Replace(c, f) == Replace(Parse(template), f)
      decreases c
    {
      var sub := if c.name in vars then vars[c.name].values[vars[c.name].current] else Token(c.name);
      Regroup(s, c.text, sub, Replace(c.rest, f));
      s, c := s + c.text + sub, c.rest;
    }
    s := s + c.text;
    forall c | Scannable(c) && Render(c) == template ensures s == Replace(c, f) {
      ParseRenderIff(c);
    }
  }

  /** How many paths are out when the odometer shows ds, or has wrapped. */
  function Emitted(ds: seq<nat>, rs: seq<nat>, more: bool): nat
    requires Digits(ds, rs)
  {
    if more then Value(ds, rs) else Product(rs)
  }

  lemma OptionAt(input: string, env: Env, join: (string, string) -> string, order: seq<string>, ds: seq<nat>)
    requires forall name :: name in order ==> name in env
    requires Digits(ds, Radix(order, env))
    ensures var all := Options(input, env, join, order); var n := Value(ds, Radix(order, env));
            n < |all| && all[n] == PathAt(input, env, join, order, ds)
  {
    OfValue(ds, Radix(order, env));
  }

  lemma TakeOne<T>(s: seq<T>, n: nat)
    requires n < |s|
    ensures s[..n] + [s[n]] == s[..n + 1]
  {}

  lemma Advance(input: string, env: Env, join: (string, string) -> string, order: seq<string>, ds: seq<nat>)
    requires forall name :: name in order ==> name in env
    requires Digits(ds, Radix(order, env))
    ensures var all := Options(input, env, join, order); var n := Value(ds, Radix(order, env));
            && n < |all| && all[..n] + [PathAt(input, env, join, order, ds)] == all[..n + 1]
            && Emitted(Next(ds, Radix(order, env)).0, Radix(order, env), Next(ds, Radix(order, env)).1) == n + 1
  {
    OptionAt(input, env, join, order, ds);
    NextAddsOne(ds, Radix(order, env));
    TakeOne(Options(input, env, join, order), Value(ds, Radix(order, env)));
  }

  /** The enumeration loop: append a path, step the odometer, stop when it wraps. */
  method Enumerate(input: string, env: Env, join: (string, string) -> string,
                   vars: map<string, PathVariable>, pvars: seq<PathVariable>, ghost order: seq<string>)
    returns (paths: seq<string>)
    requires Listed(vars, env, pvars, order) && Currents(pvars) == Zeros(|pvars|)
    requires Digits(Currents(pvars), Radices(pvars))
    modifies pvars
    ensures forall name :: name in order ==> name in env
    ensures paths == Options(input, env, join, order)
  {
    ListedRadix(vars, env, pvars, order);
    ghost var rs := Radix(order, env);
    ghost var all := Options(input, env, join, order);
    paths := [];
    var more := true;
    ZeroValue(rs);
    while more
      invariant Digits(Currents(pvars), rs)
      invariant Emitted(Currents(pvars), rs, more) <= |all|
      invariant paths == all[..Emitted(Currents(pvars), rs, more)]
      decreases |all| - |paths|, more
    {
      ChosenIsChoice(vars, env, pvars, order);
      Advance(input, env, join, order, Currents(pvars));
      var s := InterpolateStep(vars, Between(input, env, false));
      paths := paths + [Tilde(s, Home(env), join)];
      more := Increment(pvars);
    }
  }

  lemma {:induction false} ReplaceSame(c: Cut, f: string -> string, g: string -> string)
    requires forall name :: name in Names(c) ==> f(name) == g(name)
    ensures Replace(c, f) == Replace(c, g)
  {
    if c.Var? { ReplaceSame(c.rest, f, g); }
  }

  /** With no multi-valued variable there is one path, and the second pass changes nothing. */
  lemma NoVariables(input: string, env: Env, join: (string, string) -> string)
    ensures Options(input, env, join, []) == [Tilde(Between(input, env, false), Home(env), join)]
  {
    var out := Between(input, env, false);
    RenderParse(out);
    ReplaceSame(Parse(out), Fill(Choice([], env, [])), Token);
    assert Radix([], env) == [] && Of(0, []) == [];
  }

  lemma StartsAtZero(vars: map<string, PathVariable>, env: Env, pvars: seq<PathVariable>, order: seq<string>)
    requires FreshVars(vars, vars.Keys, env) && Enumerates(order, vars.Keys) && |pvars| == |order|
    requires forall i :: 0 <= i < |order| ==> pvars[i] == vars[order[i]]
    ensures Listed(vars, env, pvars, order) && Currents(pvars) == Zeros(|pvars|)
    ensures Digits(Currents(pvars), Radices(pvars))
  {}

  method EnumerateAll(input: string, env: Env, join: (string, string) -> string, vars: map<string, PathVariable>)
    returns (paths: seq<string>, ghost order: seq<string>)
    requires FreshVars(vars, vars.Keys, env)
    modifies vars.Values
    ensures Enumerates(order, vars.Keys)
    ensures forall name :: name in order ==> name in env
    ensures paths == Options(input, env, join, order)
  {
    var pvars;
    pvars, order := MapValues(vars, vars.Keys, env);
    StartsAtZero(vars, env, pvars, order);
    paths := Enumerate(input, env, join, vars, pvars, order);
  }

  /** interpolater: the first pass, then one path, or one path per combination. */
  method Interpolater(input: string, env: Env, first: bool, join: (string, string) -> string)
    returns (paths: seq<string>, ghost order: seq<string>)
    ensures first ==> paths == [Interpolate(input, env, join)]
    ensures !first ==> Enumerates(order, Vars(input, env)) && paths == Options(input, env, join, order)
    ensures first ==> |paths| == 1 && Expanded(Between(input, env, true), env, join, paths[0])
    ensures !first ==>
              forall ds :: Digits(ds, Radix(order, env)) ==>
                var n := Value(ds, Radix(order, env));
                n < |paths| && Expanded(TextAt(input, env, order, ds), env, join, paths[n])
  {
    var out, vars := FirstPass(input, env, first);
    order := [];
    assert !first ==> vars.Keys == Vars(input, env);
    if |vars| == 0 {
      assert vars.Keys == {};
      NoVariables(input, env, join);
      paths := [Tilde(out, Home(env), join)];
    } else {
      paths, order := EnumerateAll(input, env, join, vars);
    }
    PathsExpand(input, env, join, order);
  }
}
