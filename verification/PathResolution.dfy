/** Input and output file resolution of internal/host/config/path.go over interpolated
    candidates. The file system is a parameter: what stat says of each path. */
module PathResolution {
  import opened MapOrder
  import opened Odometer
  import opened Strings
  import opened Interpolation
  import opened InterpolationLaws

  datatype Stat = RegularFile | Directory | OtherFile | NotExist | StatFailed

  datatype Output = Existing | ToCreate | Failed

  function Absolute(value: string, root: string, join: Join): string {
    if value != "" && value[0] == '/' then value else join(root, value)
  }

  function AllAbsolute(values: seq<string>, root: string, join: Join): (cs: seq<string>)
    ensures |cs| == |values|
  {
    seq(|values|, i requires 0 <= i < |values| => Absolute(values[i], root, join))
  }

  function Candidates(original: string, env: Env, root: string, join: Join, order: seq<string>): (cs: seq<string>)
    requires forall name :: name in order ==> name in env
    ensures |cs| == |Options(original, env, join, order)|
  {
    AllAbsolute(Options(original, env, join, order), root, join)
  }

  /** k is the first position of the wanted kind, or the length when there is none. */
  ghost predicate FirstWanted(cs: seq<string>, stat: string -> Stat, want: Stat, k: nat) {
    k <= |cs| && (k < |cs| ==> stat(cs[k]) == want) && forall j :: 0 <= j < k ==> stat(cs[j]) != want
  }

  /** The search loop over the interpolated values. */
  method Search(values: seq<string>, root: string, join: Join, stat: string -> Stat, want: Stat) returns (k: nat)
    ensures FirstWanted(AllAbsolute(values, root, join), stat, want, k)
  {
    k := 0;
    while k < |values|
      invariant k <= |values|
      invariant forall j :: 0 <= j < k ==> stat(AllAbsolute(values, root, join)[j]) != want
    {
      var value := Absolute(values[k], root, join);
      if stat(value) == want {
        return;
      }
      k := k + 1;
    }
  }

  class Path {
    const original: string
    var resolved: string

    constructor (original: string)
      ensures this.original == original && resolved == ""
    {
      this.original := original;
      resolved := "";
    }

    /** ResolveInputFile (want is RegularFile) and ResolveInputDir (want is Directory):
        the first candidate of the wanted kind, in search order; k is its position. */
    method ResolveInput(env: Env, root: string, join: Join, stat: string -> Stat, want: Stat)
      returns (found: bool, ghost order: seq<string>, ghost k: nat)
      modifies this
      ensures Enumerates(order, Vars(original, env))
      ensures FirstWanted(Candidates(original, env, root, join, order), stat, want, k)
      ensures found <==> k < |Candidates(original, env, root, join, order)|
      ensures resolved == if found then Candidates(original, env, root, join, order)[k] else old(resolved)
    {
      var values;
      values, order := Interpolater(original, env, false, join);
      var i := Search(values, root, join, stat, want);
      k := i;
      found := i < |values|;
      if found {
        resolved := Absolute(values[i], root, join);
      }
    }

    /** ResolveOutputFile: the single form of the path; mkdir says whether the directory of
        a path exists or could be made. */
    method ResolveOutputFile(env: Env, root: string, join: Join, stat: string -> Stat, mkdir: string -> bool)
      returns (out: Output)
      modifies this
      ensures var value := Absolute(Interpolate(original, env, join), root, join);
              && (out == Existing <==> stat(value) == RegularFile)
              && (out == Failed <==> stat(value) == StatFailed || (stat(value) != RegularFile && !mkdir(value)))
              && resolved == (if out == Failed then old(resolved) else value)
    {
      var values, _ := Interpolater(original, env, true, join);
      var value := Absolute(values[0], root, join);
      if stat(value) == RegularFile {
        resolved := value;
        return Existing;
      } else if stat(value) == StatFailed {
        return Failed;
      }
      if !mkdir(value) {
        return Failed;
      }
      resolved := value;
      out := ToCreate;
    }
  }

  /** A path that begins with a slash stays; any other one is taken from the root. */
  lemma AbsoluteIs(value: string, root: string, join: Join)
    ensures forall rest :: value == "/" + rest ==> Absolute(value, root, join) == value
    ensures (forall rest :: value != "/" + rest) ==> Absolute(value, root, join) == join(root, value)
  {
    if value != "" && value[0] == '/' {
      assert value == "/" + value[1..];
    }
  }

  /** Where an output file goes, by the text of its template after the substitution: below the
      home directory, at an absolute path, or below the root. */
  lemma OutputPlace(original: string, env: Env, root: string, join: Join, rest: string)
    ensures var text, place := Between(original, env, true), Absolute(Interpolate(original, env, join), root, join);
            && (text == "/" + rest ==> place == text)
            && (text == "~/" + rest && "HOME" in env && HasPrefix(join(env["HOME"], rest), "/") ==>
                  place == join(env["HOME"], rest))
            && (!HasPrefix(text, "/") && !HasPrefix(text, "~/") ==> place == join(root, text))
  {
    var text := Between(original, env, true);
    TildeExpands(text, env, join);
    assert HasPrefix(text, "~/") ==> text == "~/" + text[2..];
    AbsoluteIs(Interpolate(original, env, join), root, join);
    var path := Interpolate(original, env, join);
    assert HasPrefix(path, "/") ==> path == "/" + path[1..];
    assert text == "/" + rest ==> text[0] == '/';
  }

  /** The first candidate of the input search is where an output file goes. */
  predicate OutputFirst(original: string, env: Env, root: string, join: Join, order: seq<string>)
    requires forall name :: name in order ==> name in env
  {
    var cs := Candidates(original, env, root, join, order);
    |cs| > 0 && cs[0] == Absolute(Interpolate(original, env, join), root, join)
  }

  /** An output file is placed at the first candidate of the matching input search, in
      whatever order the variables are enumerated. */
  lemma OutputIsFirstCandidate(original: string, env: Env, root: string, join: Join, order: seq<string>)
    requires Enumerates(order, Vars(original, env)) && SameTokens(original, env)
    ensures OutputFirst(original, env, root, join, order)
  {
    InterpolateIsHead(original, env, join, order);
  }

  /** A way of joining that loses nothing of the relative path. */
  function Marked(dir: string, path: string): string {
    "~/" + path
  }

  lemma MarkedLosesNothing(home: string, root: string, s: string, t: string)
    ensures Absolute(Tilde(s, home, Marked), root, Marked) == Absolute(Tilde(t, home, Marked), root, Marked) <==> s == t
  {
    TildeMarked(s, home);
    TildeMarked(t, home);
    assert ("~/" + s)[2..] == s && ("~/" + t)[2..] == t;
  }

  lemma TildeMarked(s: string, home: string)
    ensures Tilde(s, home, Marked) == s
  {
    if HasPrefix(s, "~/") {
      assert s == s[..2] + s[2..];
    }
  }

  lemma FirstCandidate(original: string, env: Env, root: string, join: Join, order: seq<string>)
    requires Enumerates(order, Vars(original, env))
    ensures Digits(Zeros(|order|), Radix(order, env))
    ensures var cs := Candidates(original, env, root, join, order);
            |cs| > 0 && cs[0] == Absolute(Tilde(HeadText(original, env, order), Home(env), join), root, join)
  {
    ZeroValue(Radix(order, env));
    OptionAt(original, env, join, order, Zeros(|order|));
  }

  lemma HeadDecides(original: string, env: Env, root: string, order: seq<string>)
    requires Enumerates(order, Vars(original, env))
    ensures Digits(Zeros(|order|), Radix(order, env))
    ensures OutputFirst(original, env, root, Marked, order) <==>
            HeadText(original, env, order) == Between(original, env, true)
  {
    FirstCandidate(original, env, root, Marked, order);
    MarkedLosesNothing(Home(env), root, HeadText(original, env, order), Between(original, env, true));
  }

  /** The output goes to the first candidate for all values of the multi-valued variables,
      roots and ways of joining. */
  ghost predicate AlwaysFirst(original: string, env: Env, order: seq<string>)
    requires Enumerates(order, Vars(original, env))
  {
    forall env', root, join :: OtherValues(env, env', Vars(original, env)) ==>
      OutputFirst(original, env', root, join, order)
  }

  lemma SometimesElsewhere(original: string, env: Env, order: seq<string>)
    requires Enumerates(order, Vars(original, env)) && !SameTokens(original, env)
    ensures !AlwaysFirst(original, env, order)
  {
    AllXTells(original, env, order);
    var env' := AllX(env, Vars(original, env));
    HeadDecides(original, env', "", order);
    assert !OutputFirst(original, env', "", Marked, order);
  }

  /** That is so if and only if the second pass of the interpolation sees the tokens of these
      variables that the first one kept. */
  lemma OutputIsFirstCandidateIff(original: string, env: Env, order: seq<string>)
    requires Enumerates(order, Vars(original, env))
    ensures SameTokens(original, env) <==> AlwaysFirst(original, env, order)
  {
    if SameTokens(original, env) {
      forall env', root, join | OtherValues(env, env', Vars(original, env))
        ensures OutputFirst(original, env', root, join, order)
      {
        OtherValuesSame(original, env, env');
        OutputIsFirstCandidate(original, env', root, join, order);
      }
    } else {
      SometimesElsewhere(original, env, order);
    }
  }
}
