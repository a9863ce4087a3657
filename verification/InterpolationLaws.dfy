/** What interpolation promises: exactly one path per combination, a second pass that sees
    the tokens the first one kept, and agreement between its two forms. */
module InterpolationLaws {
  import opened MapOrder
  import opened Strings
  import opened Template
  import opened Odometer
  import opened Interpolation

  type Join = (string, string) -> string

  /** The paths are in one-to-one correspondence with the digit strings, in mixed-radix
      order with the last variable fastest, and their number is the product of the
      numbers of values. */
  lemma OnePathPerCombination(input: string, env: Env, join: Join, order: seq<string>)
    requires Enumerates(order, Vars(input, env))
    ensures var rs := Radix(order, env); var all := Options(input, env, join, order);
            && |all| == Product(rs)
            && (forall ds :: Digits(ds, rs) ==>
                  (Value(ds, rs) < |all| && all[Value(ds, rs)] == PathAt(input, env, join, order, ds)))
            && (forall n: nat :: n < |all| ==> Value(Of(n, rs), rs) == n)
            && (forall ds, ds' :: Digits(ds, rs) && Digits(ds', rs) && Value(ds, rs) == Value(ds', rs) ==> ds == ds')
  {
    var rs := Radix(order, env);
    forall ds | Digits(ds, rs)
      ensures Value(ds, rs) < Product(rs) && Of(Value(ds, rs), rs) == ds
    {
      OfValue(ds, rs);
    }
    forall n: nat | n < Product(rs) ensures Value(Of(n, rs), rs) == n { ValueOf(n, rs); }
  }

  // ----- what the second pass sees -----

  function Prepend(text: string, c: Cut): Cut {
    match c
    case End(t) => End(text + t)
    case Var(t, name, rest) => Var(text + t, name, rest)
  }

  predicate Keeps(env: Env, name: string) {
    name !in env || Multi(env, name)
  }

  /** The template after the first pass, with only the kept tokens as tokens. */
  function Keep(c: Cut, env: Env): Cut {
    match c
    case End(text) => c
    case Var(text, name, rest) =>
      if Keeps(env, name) then Var(text, name, Keep(rest, env)) else Prepend(text + env[name], Keep(rest, env))
  }

  lemma PrependReplace(text: string, c: Cut, f: string -> string)
    ensures Replace(Prepend(text, c), f) == text + Replace(c, f)
  {
    if c.Var? {
      assert (text + c.text) + f(c.name) + Replace(c.rest, f) == text + (c.text + f(c.name) + Replace(c.rest, f));
    }
  }

  lemma {:induction false} KeepRenders(c: Cut, env: Env)
    ensures Render(Keep(c, env)) == Replace(c, Single(env, false))
  {
    if c.Var? {
      KeepRenders(c.rest, env);
      if !Keeps(env, c.name) {
        PrependReplace(c.text + env[c.name], Keep(c.rest, env), Token);
      }
    }
  }

  /** The second pass sees exactly the tokens the first pass kept if and only if nothing
      in the substituted text looks like a token. */
  lemma SecondPassIff(input: string, env: Env)
    ensures Parse(Between(input, env, false)) == Keep(Parse(input), env) <==> Scannable(Keep(Parse(input), env))
  {
    KeepRenders(Parse(input), env);
    ParseRenderIff(Keep(Parse(input), env));
  }

  /** No literal text of the template contains '$'. */
  predicate Clean(c: Cut) {
    '$' !in c.text && (c.Var? ==> NameOk(c.name) && Clean(c.rest))
  }

  lemma {:induction false} CleanScannable(c: Cut)
    requires Clean(c)
    ensures Scannable(c)
  {
    if c.Var? { CleanScannable(c.rest); }
  }

  lemma {:induction false} KeepClean(c: Cut, env: Env)
    requires Clean(c)
    requires forall name :: name in Names(c) && name in env && !Multi(env, name) ==> '$' !in env[name]
    ensures Clean(Keep(c, env))
  {
    if c.Var? { KeepClean(c.rest, env); }
  }

  /** In particular when neither the literals nor the single values contain '$'. */
  lemma NoDollarSuffices(input: string, env: Env)
    requires Clean(Parse(input))
    requires forall name :: name in Names(Parse(input)) && name in env && !Multi(env, name) ==> '$' !in env[name]
    ensures Scannable(Keep(Parse(input), env))
  {
    KeepClean(Parse(input), env);
    CleanScannable(Keep(Parse(input), env));
  }

  // ----- the two passes together are one substitution -----

  /** The substitution a combination stands for: every occurrence of a variable gets the
      same value. */
  function Bound(env: Env, choice: map<string, string>): string -> string {
    (name: string) =>
      if name in choice then choice[name]
      else if Keeps(env, name) then Token(name)
      else env[name]
  }

  lemma {:induction false} FillKeeps(c: Cut, env: Env, choice: map<string, string>)
    requires forall name :: name in choice ==> Multi(env, name)
    ensures Replace(Keep(c, env), Fill(choice)) == Replace(c, Bound(env, choice))
  {
    if c.Var? {
      FillKeeps(c.rest, env, choice);
      if !Keeps(env, c.name) {
        PrependReplace(c.text + env[c.name], Keep(c.rest, env), Fill(choice));
      }
    }
  }

  /** A cut with the tokens of other names turned into text. */
  function Forget(c: Cut, names: set<string>): Cut {
    match c
    case End(_) => c
    case Var(text, name, rest) =>
      if name in names then Var(text, name, Forget(rest, names))
      else Prepend(text + Token(name), Forget(rest, names))
  }

  /** Of the multi-valued variables of the template, the second pass sees the tokens that the
      first one kept, and no others. It does not depend on the values of these variables. */
  predicate SameTokens(input: string, env: Env) {
    var vars := Vars(input, env);
    Forget(Parse(Between(input, env, false)), vars) == Forget(Keep(Parse(input), env), vars)
  }

  /** In particular when the second pass sees exactly what the first one kept. */
  lemma ScannableSuffices(input: string, env: Env)
    requires Scannable(Keep(Parse(input), env))
    ensures SameTokens(input, env)
  {
    SecondPassIff(input, env);
  }

  lemma {:induction false} ForgetReplace(c: Cut, names: set<string>, f: string -> string)
    requires forall name :: name !in names ==> f(name) == Token(name)
    ensures Replace(Forget(c, names), f) == Replace(c, f)
  {
    if c.Var? {
      ForgetReplace(c.rest, names, f);
      if c.name !in names {
        PrependReplace(c.text + Token(c.name), Forget(c.rest, names), f);
      }
    }
  }

  /** And when no variable of the template has several values. */
  lemma NoMultiSuffices(input: string, env: Env)
    requires Vars(input, env) == {}
    ensures SameTokens(input, env)
  {
    var c, k := Parse(Between(input, env, false)), Keep(Parse(input), env);
    ForgetAll(c);
    ForgetAll(k);
    RenderParse(Between(input, env, false));
    KeepRenders(Parse(input), env);
  }

  lemma {:induction false} ForgetAll(c: Cut)
    ensures Forget(c, {}) == End(Render(c))
  {
    if c.Var? { ForgetAll(c.rest); }
  }

  /** Each path is the original template with one value for every variable. */
  lemma PathIsSubstitution(input: string, env: Env, join: Join, order: seq<string>, ds: seq<nat>)
    requires Enumerates(order, Vars(input, env)) && Digits(ds, Radix(order, env))
    requires SameTokens(input, env)
    ensures PathAt(input, env, join, order, ds) ==
            Tilde(Replace(Parse(input), Bound(env, Choice(order, env, ds))), Home(env), join)
  {
    var choice := Choice(order, env, ds);
    var between := Parse(Between(input, env, false));
    assert forall name :: name !in Vars(input, env) ==> Fill(choice)(name) == Token(name);
    ForgetReplace(between, Vars(input, env), Fill(choice));
    ForgetReplace(Keep(Parse(input), env), Vars(input, env), Fill(choice));
    FillKeeps(Parse(input), env, choice);
  }

  /** f gives each name of the template one of the values that its variable lists; a name without
      a variable stays. */
  ghost predicate Selects(input: string, env: Env, f: string -> string) {
    forall name :: name in Names(Parse(input)) ==>
      if name in env then f(name) in Split(env[name], ':') else f(name) == "${" + name + "}"
  }

  /** path is the template with these values, expanded. */
  ghost predicate Spells(input: string, env: Env, join: Join, f: string -> string, path: string) {
    Expanded(Replace(Parse(input), f), env, join, path)
  }

  lemma OnePart(env: Env, name: string)
    requires name in env && |Parts(env, name)| == 1
    ensures Parts(env, name) == [env[name]]
  {
    JoinSplit(env[name], ':');
  }

  lemma BoundSelects(input: string, env: Env, order: seq<string>, ds: seq<nat>)
    requires Enumerates(order, Vars(input, env)) && Digits(ds, Radix(order, env))
    ensures Selects(input, env, Bound(env, Choice(order, env, ds)))
  {
    var choice := Choice(order, env, ds);
    forall name | name in Names(Parse(input))
      ensures var v := Bound(env, choice)(name);
              if name in env then v in Split(env[name], ':') else v == "${" + name + "}"
    {
      if name in env {
        if Multi(env, name) {
          assert name in order;
        } else {
          OnePart(env, name);
        }
      }
    }
  }

  /** The digits that choose the values of f. */
  lemma DigitsOf(env: Env, order: seq<string>, f: string -> string) returns (ds: seq<nat>)
    requires forall name :: name in order ==> name in env && f(name) in Parts(env, name)
    ensures Digits(ds, Radix(order, env))
    ensures forall i :: 0 <= i < |order| ==> Parts(env, order[i])[ds[i]] == f(order[i])
  {
    ds := seq(|order|, i requires 0 <= i < |order| => IndexIn(Parts(env, order[i]), f(order[i])));
  }

  lemma ChosenAgrees(input: string, env: Env, order: seq<string>, f: string -> string, ds: seq<nat>)
    requires Enumerates(order, Vars(input, env)) && Selects(input, env, f) && Digits(ds, Radix(order, env))
    requires forall i :: 0 <= i < |order| ==> Parts(env, order[i])[ds[i]] == f(order[i])
    ensures Replace(Parse(input), Bound(env, Choice(order, env, ds))) == Replace(Parse(input), f)
  {
    var g := Bound(env, Choice(order, env, ds));
    forall name | name in Names(Parse(input)) ensures g(name) == f(name) {
      if name in env {
        if Multi(env, name) {
          assert name in order;
        } else {
          OnePart(env, name);
        }
      }
    }
    ReplaceSame(Parse(input), g, f);
  }

  lemma OptionSpells(input: string, env: Env, join: Join, order: seq<string>, ds: seq<nat>)
    requires Enumerates(order, Vars(input, env)) && SameTokens(input, env) && Digits(ds, Radix(order, env))
    ensures var all, n := Options(input, env, join, order), Value(ds, Radix(order, env));
            n < |all| && Spells(input, env, join, Bound(env, Choice(order, env, ds)), all[n])
  {
    OptionAt(input, env, join, order, ds);
    PathIsSubstitution(input, env, join, order, ds);
    TildeExpands(Replace(Parse(input), Bound(env, Choice(order, env, ds))), env, join);
  }

  ghost predicate SpellsSome(input: string, env: Env, join: Join, path: string) {
    exists f :: Selects(input, env, f) && Spells(input, env, join, f, path)
  }

  ghost predicate SpelledBy(input: string, env: Env, join: Join, f: string -> string, paths: seq<string>) {
    exists path :: path in paths && Spells(input, env, join, f, path)
  }

  /** The options are the template with every selection of one listed value for each variable:
      each option spells one, and each one is spelled by an option. */
  lemma OptionsAreSelections(input: string, env: Env, join: Join, order: seq<string>)
    requires Enumerates(order, Vars(input, env)) && SameTokens(input, env)
    ensures var all := Options(input, env, join, order);
            && (forall path :: path in all ==> SpellsSome(input, env, join, path))
            && (forall f :: Selects(input, env, f) ==> SpelledBy(input, env, join, f, all))
  {
    var rs, all := Radix(order, env), Options(input, env, join, order);
    forall path | path in all ensures SpellsSome(input, env, join, path) {
      var n: nat :| n < |all| && all[n] == path;
      ValueOf(n, rs);
      BoundSelects(input, env, order, Of(n, rs));
      OptionSpells(input, env, join, order, Of(n, rs));
    }
    forall f | Selects(input, env, f) ensures SpelledBy(input, env, join, f, all) {
      var ds := DigitsOf(env, order, f);
      ChosenAgrees(input, env, order, f, ds);
      OptionSpells(input, env, join, order, ds);
      assert all[Value(ds, rs)] in all;
    }
  }

  lemma FirstChoice(order: seq<string>, env: Env, c: Cut)
    requires Enumerates(order, set name <- Names(c) | Multi(env, name))
    requires Digits(Zeros(|order|), Radix(order, env))
    ensures Replace(c, Bound(env, Choice(order, env, Zeros(|order|)))) == Replace(c, Single(env, true))
  {
    var choice := Choice(order, env, Zeros(|order|));
    forall name | name in Names(c) ensures Bound(env, choice)(name) == Single(env, true)(name) {
      if Multi(env, name) { assert name in order; }
    }
    ReplaceSame(c, Bound(env, choice), Single(env, true));
  }

  /** The single form is the head of the options: each variable at its first value. */
  lemma InterpolateIsHead(input: string, env: Env, join: Join, order: seq<string>)
    requires Enumerates(order, Vars(input, env)) && SameTokens(input, env)
    ensures |Options(input, env, join, order)| > 0
    ensures Options(input, env, join, order)[0] == Interpolate(input, env, join)
  {
    var rs := Radix(order, env);
    var ds := Zeros(|rs|);
    ZeroValue(rs);
    OptionAt(input, env, join, order, ds);
    PathIsSubstitution(input, env, join, order, ds);
    FirstChoice(order, env, Parse(input));
  }

  // ----- and only then -----

  /** The first option before the tilde is handled. */
  function HeadText(input: string, env: Env, order: seq<string>): string
    requires forall name :: name in order ==> name in env
    requires Digits(Zeros(|order|), Radix(order, env))
  {
    Replace(Parse(Between(input, env, false)), Fill(Choice(order, env, Zeros(|order|))))
  }

  predicate Named(c: Cut) {
    c.Var? ==> NameOk(c.name) && Named(c.rest)
  }

  lemma {:induction false} ScannableNamed(c: Cut)
    requires Scannable(c)
    ensures Named(c)
  {
    if c.Var? { ScannableNamed(c.rest); }
  }

  lemma {:induction false} KeepNamed(c: Cut, env: Env)
    requires Named(c)
    ensures Named(Keep(c, env))
  {
    if c.Var? { KeepNamed(c.rest, env); }
  }

  lemma {:induction false} ForgetNamed(c: Cut, names: set<string>)
    requires Named(c)
    ensures Named(Forget(c, names)) && Names(Forget(c, names)) <= names
  {
    if c.Var? { ForgetNamed(c.rest, names); }
  }

  /** Where one cut of a string has a token and the other still has text, a value that does
      not begin with '$' tells them apart. */
  lemma EarlierToken(c: Cut, d: Cut, f: string -> string)
    requires c.Var? && |c.text| < |d.text| && Render(c) == Render(d) && f(c.name) == "x"
    ensures Replace(c, f) != Replace(d, f)
  {
    var k := |c.text|;
    assert Render(c)[k] == '$';
    assert Render(d)[k] == d.text[k] == Replace(d, f)[k];
    assert Replace(c, f)[k] == 'x';
  }

  lemma SameName(a: string, b: string, r: string, t: string)
    requires NameOk(a) && NameOk(b) && Token(a) + r == Token(b) + t
    ensures a == b && r == t
  {
    var s := Token(a) + r;
    assert s[2 + |a|] == '}' && forall i :: 0 <= i < |a| ==> s[2 + i] == a[i];
    assert s[2 + |b|] == '}' && forall i :: 0 <= i < |b| ==> s[2 + i] == b[i];
    assert |a| == |b|;
    assert s[2..2 + |a|] == a && s[2..2 + |b|] == b;
    assert s[3 + |a|..] == r && s[3 + |b|..] == t;
  }

  lemma SameHead(c: Cut, d: Cut)
    requires c.Var? && d.Var? && NameOk(c.name) && NameOk(d.name) && |c.text| == |d.text| && Render(c) == Render(d)
    ensures c.text == d.text && c.name == d.name && Render(c.rest) == Render(d.rest)
  {
    var k := |c.text|;
    assert Render(c) == c.text + (Token(c.name) + Render(c.rest));
    assert Render(d) == d.text + (Token(d.name) + Render(d.rest));
    assert Render(c)[..k] == c.text && Render(d)[..k] == d.text;
    assert Render(c)[k..] == Token(c.name) + Render(c.rest) && Render(d)[k..] == Token(d.name) + Render(d.rest);
    SameName(c.name, d.name, Render(c.rest), Render(d.rest));
  }

  lemma SameTail(text: string, r: string, t: string)
    ensures text + "x" + r == text + "x" + t <==> r == t
  {
    var k := |text| + 1;
    assert (text + "x" + r)[k..] == r && (text + "x" + t)[k..] == t;
  }

  /** Two cuts of one string are told apart by putting "x" for every token. */
  lemma {:induction false} Distinguish(c: Cut, d: Cut, f: string -> string)
    requires Named(c) && Named(d) && Render(c) == Render(d)
    requires forall name :: name in Names(c) + Names(d) ==> f(name) == "x"
    ensures Replace(c, f) == Replace(d, f) <==> c == d
    decreases c
  {
    if c.Var? && |c.text| < |d.text| {
      EarlierToken(c, d, f);
    } else if d.Var? && |d.text| < |c.text| {
      EarlierToken(d, c, f);
    } else if c.Var? && d.Var? {
      SameHead(c, d);
      Distinguish(c.rest, d.rest, f);
      SameTail(c.text, Replace(c.rest, f), Replace(d.rest, f));
    } else {
      assert |Render(c)| == |Render(d)|;
    }
  }

  /** Another environment with other values for the multi-valued variables of a template. */
  ghost predicate OtherValues(env: Env, env': Env, vars: set<string>) {
    && env'.Keys == env.Keys
    && forall name :: name in env ==> if name in vars then Multi(env', name) else env'[name] == env[name]
  }

  lemma {:induction false} KeepSame(c: Cut, env: Env, env': Env)
    requires forall name :: name in Names(c) ==> (Keeps(env, name) <==> Keeps(env', name))
    requires forall name :: name in Names(c) && !Keeps(env, name) ==> name in env' && env'[name] == env[name]
    ensures Keep(c, env) == Keep(c, env')
  {
    if c.Var? { KeepSame(c.rest, env, env'); }
  }

  lemma OtherValuesSame(input: string, env: Env, env': Env)
    requires OtherValues(env, env', Vars(input, env))
    ensures Vars(input, env') == Vars(input, env) && Keep(Parse(input), env') == Keep(Parse(input), env)
    ensures Between(input, env', false) == Between(input, env, false)
    ensures SameTokens(input, env') <==> SameTokens(input, env)
  {
    forall name | name in Names(Parse(input)) ensures Multi(env', name) <==> Multi(env, name) {
      if name in env && name !in Vars(input, env) { assert env'[name] == env[name]; }
    }
    KeepSame(Parse(input), env, env');
    KeepRenders(Parse(input), env);
    KeepRenders(Parse(input), env');
  }

  /** The environment that tells the two forms apart if any does: "x" as the first value of
      every multi-valued variable of the template. */
  function AllX(env: Env, vars: set<string>): Env {
    map name | name in env :: if name in vars then "x:" else env[name]
  }

  lemma AllXIsOther(env: Env, vars: set<string>)
    ensures OtherValues(env, AllX(env, vars), vars)
    ensures forall name :: name in vars && name in env ==> Parts(AllX(env, vars), name)[0] == "x"
  {
    SplitFirst("x", ':', "");
    assert "x" + [':'] + "" == "x:";
    assert Split("", ':') == [""];
  }

  lemma HeadTextIsFilled(input: string, env: Env, order: seq<string>)
    requires Enumerates(order, Vars(input, env))
    ensures Digits(Zeros(|order|), Radix(order, env))
    ensures var f := Fill(Choice(order, env, Zeros(|order|))); var vars := Vars(input, env);
            && HeadText(input, env, order) == Replace(Forget(Parse(Between(input, env, false)), vars), f)
            && Between(input, env, true) == Replace(Forget(Keep(Parse(input), env), vars), f)
  {
    var choice := Choice(order, env, Zeros(|order|));
    assert forall name :: name !in Vars(input, env) ==> Fill(choice)(name) == Token(name);
    ForgetReplace(Parse(Between(input, env, false)), Vars(input, env), Fill(choice));
    ForgetReplace(Keep(Parse(input), env), Vars(input, env), Fill(choice));
    FillKeeps(Parse(input), env, choice);
    FirstChoice(order, env, Parse(input));
  }

  /** When the second pass sees other tokens, the values of AllX make the texts differ. */
  lemma AllXTells(input: string, env: Env, order: seq<string>)
    requires Enumerates(order, Vars(input, env)) && !SameTokens(input, env)
    ensures var env' := AllX(env, Vars(input, env));
            && OtherValues(env, env', Vars(input, env)) && Enumerates(order, Vars(input, env'))
            && Digits(Zeros(|order|), Radix(order, env'))
            && HeadText(input, env', order) != Between(input, env', true)
  {
    var vars := Vars(input, env);
    var env' := AllX(env, vars);
    AllXIsOther(env, vars);
    OtherValuesSame(input, env, env');
    XTells(input, env', order);
  }

  lemma ChoiceX(order: seq<string>, env: Env, vars: set<string>)
    requires Enumerates(order, vars) && forall name :: name in vars ==> Multi(env, name) && Parts(env, name)[0] == "x"
    ensures forall name :: name in order ==> name in env
    ensures Digits(Zeros(|order|), Radix(order, env))
    ensures forall name :: name in vars ==> Fill(Choice(order, env, Zeros(|order|)))(name) == "x"
  {
    var choice := Choice(order, env, Zeros(|order|));
    forall name | name in vars ensures name in choice && choice[name] == "x" {
      assert name in order;
    }
  }

  lemma XTells(input: string, env: Env, order: seq<string>)
    requires Enumerates(order, Vars(input, env)) && !SameTokens(input, env)
    requires forall name :: name in Vars(input, env) ==> Parts(env, name)[0] == "x"
    ensures Digits(Zeros(|order|), Radix(order, env))
    ensures HeadText(input, env, order) != Between(input, env, true)
  {
    var vars := Vars(input, env);
    HeadTextIsFilled(input, env, order);
    ChoiceX(order, env, vars);
    var c, d := Forget(Parse(Between(input, env, false)), vars), Forget(Keep(Parse(input), env), vars);
    CutsOfOneString(input, env, vars);
    Distinguish(c, d, Fill(Choice(order, env, Zeros(|order|))));
  }

  lemma CutsOfOneString(input: string, env: Env, vars: set<string>)
    ensures var c, d := Forget(Parse(Between(input, env, false)), vars), Forget(Keep(Parse(input), env), vars);
            Named(c) && Named(d) && Render(c) == Render(d) && Names(c) <= vars && Names(d) <= vars
  {
    var b, k := Parse(Between(input, env, false)), Keep(Parse(input), env);
    ParseScannable(Between(input, env, false));
    ParseScannable(input);
    ScannableNamed(b);
    ScannableNamed(Parse(input));
    KeepNamed(Parse(input), env);
    ForgetNamed(b, vars);
    ForgetNamed(k, vars);
    ForgetReplace(b, vars, Token);
    ForgetReplace(k, vars, Token);
    RenderParse(Between(input, env, false));
    KeepRenders(Parse(input), env);
  }

  /** The two forms agree for all values of the multi-valued variables if and only if the
      second pass sees the tokens of these variables that the first one kept. */
  lemma HeadIsSingleIff(input: string, env: Env, order: seq<string>)
    requires Enumerates(order, Vars(input, env))
    ensures SameTokens(input, env) <==>
            forall env' :: OtherValues(env, env', Vars(input, env)) ==>
              && Digits(Zeros(|order|), Radix(order, env'))
              && HeadText(input, env', order) == Between(input, env', true)
  {
    if SameTokens(input, env) {
      forall env' | OtherValues(env, env', Vars(input, env))
        ensures Digits(Zeros(|order|), Radix(order, env')) && HeadText(input, env', order) == Between(input, env', true)
      {
        OtherValuesSame(input, env, env');
        HeadTextIsFilled(input, env', order);
      }
    } else {
      AllXTells(input, env, order);
    }
  }

  // ----- where a substituted '$' breaks the agreement -----

  lemma NothingInFront(s: string, t: string)
    ensures "" + s + t == s + t
  {}

  lemma ParseOne(name: string, rest: string)
    requires NameOk(name)
    ensures Parse(Token(name) + rest) == Var("", name, Parse(rest))
  {
    ParseToken("", name, rest);
    NothingInFront(Token(name), rest);
  }

  lemma TwoTokens(a: string, b: string)
    requires NameOk(a) && NameOk(b)
    ensures Parse(Token(a) + Token(b)) == Var("", a, Var("", b, End("")))
  {
    ParseEnd("");
    ParseOne(b, "");
    assert Token(b) + "" == Token(b);
    ParseOne(a, Token(b));
  }

  lemma TwoSubstituted(a: string, b: string, f: string -> string)
    ensures Replace(Var("", a, Var("", b, End(""))), f) == f(a) + f(b)
  {
    assert Replace(Var("", b, End("")), f) == "" + f(b) + Replace(End(""), f) == f(b);
    assert Replace(Var("", a, Var("", b, End(""))), f) == "" + f(a) + f(b);
  }

  lemma RescannedCut(env: Env, a: string, b: string)
    requires NameOk(b) && a in env && env[a] == Token(b) && !Multi(env, a) && Multi(env, b)
    ensures !Scannable(Keep(Var("", a, Var("", b, End(""))), env))
  {
    assert Keep(Var("", b, End("")), env) == Var("", b, End(""));
    assert "" + Token(b) + "" == Token(b);
    assert Keep(Var("", a, Var("", b, End(""))), env) == Var(Token(b), b, End(""));
    assert Token(b)[0] == '$' && Token(b)[1] == '{' && Token(b)[2] == b[0];
    assert !Harmless(Token(b), 0, false);
  }

  lemma RescannedOption(env: Env, input: string, b: string, x: string, join: Join)
    requires Multi(env, b) && Parts(env, b)[0] == x
    requires Parse(Between(input, env, false)) == Var("", b, Var("", b, End("")))
    ensures |Options(input, env, join, [b])| > 0
    ensures Options(input, env, join, [b])[0] == Tilde(x + x, Home(env), join)
  {
    var order := [b];
    var rs := Radix(order, env);
    ZeroValue(rs);
    OptionAt(input, env, join, order, Zeros(1));
    var choice := Choice(order, env, Zeros(1));
    assert b in choice && choice[b] == x;
    TwoSubstituted(b, b, Fill(choice));
  }

  lemma TwoNames(a: string, b: string)
    ensures Names(Var("", a, Var("", b, End("")))) == {a, b}
  {
    assert Names(Var("", b, End(""))) == {b} + Names(End("")) == {b};
  }

  /** A variable whose one value spells the token of a multi-valued variable. */
  predicate Smuggles(env: Env, a: string, b: string) {
    && NameOk(a) && NameOk(b) && a != b
    && a in env && !Multi(env, a) && env[a] == Token(b) && Multi(env, b)
  }

  lemma RescannedSingle(env: Env, a: string, b: string, join: Join)
    requires Smuggles(env, a, b)
    ensures var input := Token(a) + Token(b);
            && Vars(input, env) == {b}
            && Between(input, env, false) == Token(b) + Token(b)
            && Interpolate(input, env, join) == Token(b) + Parts(env, b)[0]
  {
    TwoTokens(a, b);
    TwoSubstituted(a, b, Single(env, true));
    TwoSubstituted(a, b, Single(env, false));
    TwoNames(a, b);
    assert (Token(b) + Parts(env, b)[0])[0] == '$';
  }

  /** Such a value is substituted again by the second pass: with a = "${b}" and b = x:...,
      "${a}${b}" has "xx" as its first option, while its single form is "${b}x". */
  lemma SubstitutedTokenIsRescanned(env: Env, a: string, b: string, join: Join)
    requires Smuggles(env, a, b)
    ensures var input, x := Token(a) + Token(b), Parts(env, b)[0];
            && Enumerates([b], Vars(input, env))
            && !Scannable(Keep(Parse(input), env))
            && Interpolate(input, env, join) == Token(b) + x
            && |Options(input, env, join, [b])| > 0
            && Options(input, env, join, [b])[0] == Tilde(x + x, Home(env), join)
  {
    TwoTokens(a, b);
    TwoTokens(b, b);
    RescannedSingle(env, a, b, join);
    RescannedCut(env, a, b);
    RescannedOption(env, Token(a) + Token(b), b, Parts(env, b)[0], join);
  }
}
