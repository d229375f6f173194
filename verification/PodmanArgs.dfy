/** Where the session's Podman wrapper finds a build command, and what it adds
    to it (internal/podman/wrapper.go). */
module PodmanArgs {
  import opened Wrappers
  import opened HostNames

  const SWITCHES: set<string> := {"--remote", "-r", "--syslog", "--transient-store"}

  const VALUED: set<string> := {
    "--cdi-spec-dir", "--cgroup-manager", "--config", "--conmon", "--connection", "-c", "--events-backend",
    "--hooks-dir", "--identity", "--imagestore", "--log-level", "--module", "--network-cmd-path",
    "--network-config-dir", "--out", "--root", "--runroot", "--runtime", "--runtime-flag", "--ssh",
    "--storage-driver", "--storage-opt", "--tls-ca", "--tls-cert", "--tls-key", "--tmpdir", "--url", "--volumepath"
  }

  const GROUPS: set<string> := {"image", "buildx"}

  const DEFAULT_FLAG: string := "--http-proxy=false"

  /** The part of a word before its first "=". */
  function NameOf(word: string): (name: string)
    ensures name <= word && '=' !in name
    ensures |name| < |word| ==> word[|name|] == '='
  {
    if word == "" || word[0] == '=' then []
    else
      assert [word[0]] + word[1..] == word;
      [word[0]] + NameOf(word[1..])
  }

  predicate IsOption(word: string) {
    HasPrefix(word, "-") && word != "--"
  }

  /** -cNAME, the attached form of the connection option. */
  predicate IsAttached(word: string) {
    HasPrefix(word, "-c") && !HasPrefix(word, "--") && |word| > 2
  }

  /** What a word is to the scan, by the tests of the source in their order: a global option complete in one word, a
      global option whose value is the next word, a group word, or "build". */
  datatype Kind = OneWord | TwoWords | Group | Build | Other

  function KindBy(word: string, switches: set<string>, valued: set<string>, groups: set<string>): Kind {
    if word == "build" then Build
    else if word in groups then Group
    else if !IsOption(word) then Other
    else
      var name, hasValue := NameOf(word), '=' in word;
      if name in switches then OneWord
      else if name in valued then (if hasValue then OneWord else TwoWords)
      else if IsAttached(word) then OneWord
      else Other
  }

  function KindOf(word: string): Kind {
    KindBy(word, SWITCHES, VALUED, GROUPS)
  }

  ghost predicate IsSwitch(name: string) {
    name in {"--remote", "-r", "--syslog", "--transient-store"}
  }

  ghost predicate IsValued(name: string) {
    name in {
      "--cdi-spec-dir", "--cgroup-manager", "--config", "--conmon", "--connection", "-c", "--events-backend",
      "--hooks-dir", "--identity", "--imagestore", "--log-level", "--module", "--network-cmd-path",
      "--network-config-dir", "--out", "--root", "--runroot", "--runtime", "--runtime-flag", "--ssh",
      "--storage-driver", "--storage-opt", "--tls-ca", "--tls-cert", "--tls-key", "--tmpdir", "--url", "--volumepath"
    }
  }

  /** A name, or a name with something behind "=". */
  ghost predicate Spells(word: string, name: string) {
    word == name || name + "=" <= word
  }

  lemma SignInside(word: string, shorter: string, longer: string)
    requires shorter <= word && longer <= word && |shorter| < |longer|
    requires word[|shorter|] == '='
    ensures '=' in longer
  {
    assert longer[|shorter|] == word[|shorter|];
  }

  lemma SpelledBegins(word: string, name: string)
    ensures Spells(word, name) <==> name <= word && (|name| < |word| ==> word[|name|] == '=')
  {
    if name <= word && |name| < |word| && word[|name|] == '=' {
      assert word[..|name| + 1] == name + "=";
    }
  }

  lemma NameIsSpelled(word: string, name: string)
    requires '=' !in name
    ensures Spells(word, name) <==> NameOf(word) == name
  {
    var own := NameOf(word);
    SpelledBegins(word, name);
    if Spells(word, name) {
      if |own| < |name| {
        SignInside(word, own, name);
      } else if |name| < |own| {
        SignInside(word, name, own);
      } else {
        assert own == word[..|own|] && name == word[..|name|];
      }
    }
  }

  /** What the names of the options have in common. */
  ghost predicate OptionShape(name: string) {
    |name| >= 2 && name[0] == '-' && '=' !in name && name != "--"
  }

  ghost predicate NoAttachedForm(name: string) {
    |name| >= 2 && (|name| == 2 || name[1] == '-')
  }

  lemma SwitchShape(name: string)
    requires IsSwitch(name)
    ensures OptionShape(name)
  {
  }

  lemma ValuedShape(name: string)
    requires IsValued(name)
    ensures OptionShape(name)
  {
  }

  lemma ValuedIsLong(name: string)
    requires IsValued(name)
    ensures NoAttachedForm(name)
  {
  }

  ghost predicate OptionShapes(names: set<string>) {
    forall name :: name in names ==> OptionShape(name)
  }

  /** The word spells one of the names, alone or with a value attached. */
  ghost predicate SpellsOneOf(word: string, names: set<string>) {
    exists name :: name in names && Spells(word, name)
  }

  ghost predicate AssignsOneOf(word: string, names: set<string>) {
    exists name :: name in names && Spells(word, name) && word != name
  }

  lemma NamesSpelled(word: string, names: set<string>)
    requires OptionShapes(names)
    ensures NameOf(word) in names <==> SpellsOneOf(word, names)
    ensures NameOf(word) in names && '=' in word <==> AssignsOneOf(word, names)
    ensures NameOf(word) in names && '=' !in word <==> word in names
    ensures NameOf(word) in names ==> IsOption(word)
  {
    NameIsSpelled(word, NameOf(word));
    forall name | name in names && Spells(word, name) ensures name == NameOf(word) && '=' !in name {
      assert OptionShape(name);
      NameIsSpelled(word, name);
    }
    if NameOf(word) in names {
      assert OptionShape(NameOf(word));
      assert word[..1] == "-";
    }
  }

  lemma AttachedExactly(word: string)
    ensures IsAttached(word) <==> |word| > 2 && word[0] == '-' && word[1] == 'c'
    ensures IsAttached(word) ==> IsOption(word)
  {
    if |word| > 2 {
      assert word[..2] == [word[0], word[1]];
      assert word[..1] == [word[0]];
    }
  }

  ghost predicate WellShaped(switches: set<string>, valued: set<string>, groups: set<string>) {
    && OptionShapes(switches) && OptionShapes(valued)
    && (forall name :: name in valued ==> NoAttachedForm(name) && name !in switches)
    && (forall name :: name in groups + {"build"} ==> name != "" && name[0] != '-')
  }

  /** The classification, for any lists of names of the right shape. */
  lemma KindByExactly(word: string, switches: set<string>, valued: set<string>, groups: set<string>)
    requires WellShaped(switches, valued, groups)
    ensures KindBy(word, switches, valued, groups) == Build <==> word == "build"
    ensures word != "build" ==> (KindBy(word, switches, valued, groups) == Group <==> word in groups)
    ensures KindBy(word, switches, valued, groups) == TwoWords <==> word in valued
    ensures KindBy(word, switches, valued, groups) == OneWord <==>
      SpellsOneOf(word, switches) || AssignsOneOf(word, valued) || IsAttached(word)
  {
    NamesSpelled(word, switches);
    NamesSpelled(word, valued);
    AttachedExactly(word);
    if word == "build" || word in groups {
      assert word in groups + {"build"};
      assert !IsOption(word);
    }
    if word in valued {
      assert NoAttachedForm(word);
      assert NameOf(word) == word;
    }
  }

  lemma ListsHaveShape()
    ensures OptionShapes(SWITCHES)
    ensures forall name :: name in SWITCHES <==> IsSwitch(name)
  {
    forall name ensures name in SWITCHES <==> IsSwitch(name) {
    }
    forall name | IsSwitch(name) ensures OptionShape(name) {
      SwitchShape(name);
    }
  }

  lemma ValuedHaveShape()
    ensures OptionShapes(VALUED)
    ensures forall name :: name in VALUED <==> IsValued(name)
    ensures forall name :: name in VALUED ==> NoAttachedForm(name)
  {
    forall name ensures name in VALUED <==> IsValued(name) {
    }
    forall name | IsValued(name) ensures OptionShape(name) && NoAttachedForm(name) {
      ValuedShape(name);
      ValuedIsLong(name);
    }
  }

  lemma NoSwitchIsValued(name: string)
    requires IsSwitch(name)
    ensures !IsValued(name)
  {
  }

  lemma GroupsAreNoOptions()
    ensures forall name :: name in GROUPS + {"build"} ==> name != "" && name[0] != '-'
  {
  }

  lemma ListsAreWellShaped()
    ensures WellShaped(SWITCHES, VALUED, GROUPS)
  {
    ListsHaveShape();
    ValuedHaveShape();
    GroupsAreNoOptions();
    forall name | name in VALUED ensures name !in SWITCHES {
      if IsSwitch(name) { NoSwitchIsValued(name); }
    }
  }

  lemma KindOfByLists(word: string)
    ensures KindOf(word) == Build <==> word == "build"
    ensures word != "build" ==> (KindOf(word) == Group <==> word in GROUPS)
    ensures KindOf(word) == TwoWords <==> word in VALUED
    ensures KindOf(word) == OneWord <==>
      SpellsOneOf(word, SWITCHES) || AssignsOneOf(word, VALUED) || IsAttached(word)
  {
    ListsAreWellShaped();
    KindByExactly(word, SWITCHES, VALUED, GROUPS);
  }

  /** What every word is to the scan: a global option is complete if it is one
      of the switches, carries its value behind "=", or is the attached form of
      the connection option; it takes the next word exactly if it is the bare
      name of an option with a value. */
  lemma KindOfExactly(word: string)
    ensures KindOf(word) == Build <==> word == "build"
    ensures KindOf(word) == Group <==> word == "image" || word == "buildx"
    ensures KindOf(word) == TwoWords <==> IsValued(word)
    ensures KindOf(word) == OneWord <==>
      || (exists name :: IsSwitch(name) && Spells(word, name))
      || (exists name :: IsValued(name) && Spells(word, name) && word != name)
      || (|word| > 2 && word[0] == '-' && word[1] == 'c')
  {
    KindOfByLists(word);
    ListsHaveShape();
    ValuedHaveShape();
    AttachedExactly(word);
  }

  function Kinds(args: seq<string>, kindOf: string -> Kind): (kinds: seq<Kind>)
    ensures |kinds| == |args| && forall i :: 0 <= i < |args| ==> kinds[i] == kindOf(args[i])
  {
    seq(|args|, i requires 0 <= i < |args| => kindOf(args[i]))
  }

  // ------------------------------------------------------------- the grammar

  /** A run of complete global options; a value may be any word. */
  predicate Globals(words: seq<Kind>) {
    if words == [] then true
    else if words[0].OneWord? then Globals(words[1..])
    else if words[0].TwoWords? && |words| >= 2 then Globals(words[2..])
    else false
  }

  /** Globals, a group word at g, globals. */
  predicate Grouped(words: seq<Kind>, g: nat) {
    g < |words| && words[g].Group? && Globals(words[..g]) && Globals(words[g + 1..])
  }

  /** What may stand before a build command. */
  ghost predicate Prefix(words: seq<Kind>, grouped: bool) {
    Globals(words) || (!grouped && exists g: nat :: Grouped(words, g))
  }

  /** A build command at n: no group word is allowed when one was seen already. */
  ghost predicate BuildIn(words: seq<Kind>, grouped: bool, n: nat) {
    n < |words| && words[n].Build? && Prefix(words[..n], grouped)
  }

  ghost predicate BuildAt(args: seq<string>, n: nat) {
    BuildIn(Kinds(args, KindOf), false, n)
  }

  function Width(k: Kind): nat {
    if k.TwoWords? then 2 else 1
  }

  lemma GlobalsPast(words: seq<Kind>)
    requires words != [] && (words[0].OneWord? || words[0].TwoWords?)
    ensures Globals(words) <==> |words| >= Width(words[0]) && Globals(words[Width(words[0])..])
  {
  }

  lemma GroupedPast(words: seq<Kind>, g: nat)
    requires words != [] && (words[0].OneWord? || words[0].TwoWords?) && |words| >= Width(words[0])
    ensures var width := Width(words[0]);
            Grouped(words, g) <==> g >= width && Grouped(words[width..], g - width)
  {
    var width := Width(words[0]);
    if 0 < g < |words| {
      GlobalsPast(words[..g]);
      if g >= width {
        assert words[..g][width..] == words[width..][..g - width];
        assert words[g + 1..] == words[width..][g - width + 1..];
      }
    }
  }

  /** A complete option in front changes nothing about what follows it. */
  lemma PrefixPast(words: seq<Kind>, grouped: bool)
    requires words != [] && (words[0].OneWord? || words[0].TwoWords?)
    ensures Prefix(words, grouped) <==> |words| >= Width(words[0]) && Prefix(words[Width(words[0])..], grouped)
  {
    var width := Width(words[0]);
    GlobalsPast(words);
    if |words| >= width {
      if g: nat :| Grouped(words, g) {
        GroupedPast(words, g);
      }
      if h: nat :| Grouped(words[width..], h) {
        GroupedPast(words, h + width);
      }
    } else {
      assert forall g: nat :: !Grouped(words, g);
    }
  }

  lemma PrefixPastGroup(words: seq<Kind>)
    requires words != [] && words[0].Group?
    ensures Prefix(words, false) <==> Prefix(words[1..], true)
    ensures !Prefix(words, true)
  {
    assert words[..0] == [] && words[0 + 1..] == words[1..];
    assert Grouped(words, 0) <==> Globals(words[1..]);
    forall g: nat | g > 0 ensures !Grouped(words, g) {
      if g < |words| { assert words[..g][0] == words[0]; }
    }
  }

  lemma PrefixStuck(words: seq<Kind>, grouped: bool)
    requires words != [] && (words[0].Build? || words[0].Other?)
    ensures !Prefix(words, grouped)
  {
    forall g: nat ensures !Grouped(words, g) {
      if 0 < g < |words| { assert words[..g][0] == words[0]; }
    }
  }

  // -------------------------------------------------------------- the scan

  /** The part of the grammar still to be met from position i on. */
  ghost predicate BuildFrom(words: seq<Kind>, i: nat, grouped: bool, n: nat)
    requires i <= |words|
  {
    n >= i && BuildIn(words[i..], grouped, n - i)
  }

  lemma SkipOption(words: seq<Kind>, i: nat, grouped: bool)
    requires i < |words| && (words[i].OneWord? || words[i].TwoWords?)
    ensures i + Width(words[i]) <= |words| ==>
              forall n: nat :: BuildFrom(words, i, grouped, n) <==> BuildFrom(words, i + Width(words[i]), grouped, n)
    ensures i + Width(words[i]) > |words| ==> forall n: nat :: !BuildFrom(words, i, grouped, n)
  {
    var width := Width(words[i]);
    forall n: nat | i < n < |words|
      ensures Prefix(words[i..n], grouped) <==> n >= i + width && Prefix(words[i + width..n], grouped)
    {
      PrefixPast(words[i..n], grouped);
      if n >= i + width { assert words[i..n][width..] == words[i + width..n]; }
    }
    SliceOfRest(words, i, grouped);
    if i + width <= |words| { SliceOfRest(words, i + width, grouped); }
  }

  lemma SliceOfRest(words: seq<Kind>, i: nat, grouped: bool)
    requires i <= |words|
    ensures forall n: nat :: BuildFrom(words, i, grouped, n) <==>
                               i <= n < |words| && words[n].Build? && Prefix(words[i..n], grouped)
  {
    forall n: nat | i <= n < |words| ensures words[i..][..n - i] == words[i..n] {
    }
  }

  lemma SkipGroup(words: seq<Kind>, i: nat)
    requires i < |words| && words[i].Group?
    ensures forall n: nat :: BuildFrom(words, i, false, n) <==> BuildFrom(words, i + 1, true, n)
    ensures forall n: nat :: !BuildFrom(words, i, true, n)
  {
    forall n: nat | i < n < |words|
      ensures (Prefix(words[i..n], false) <==> Prefix(words[i + 1..n], true)) && !Prefix(words[i..n], true)
    {
      PrefixPastGroup(words[i..n]);
      assert words[i..n][1..] == words[i + 1..n];
    }
    SliceOfRest(words, i, false);
    SliceOfRest(words, i, true);
    SliceOfRest(words, i + 1, true);
  }

  lemma Decided(words: seq<Kind>, i: nat, grouped: bool)
    requires i < |words| && (words[i].Build? || words[i].Other?)
    ensures forall n: nat :: BuildFrom(words, i, grouped, n) <==> n == i && words[i].Build?
  {
    forall n: nat | i < n < |words| ensures !Prefix(words[i..n], grouped) {
      PrefixStuck(words[i..n], grouped);
    }
    SliceOfRest(words, i, grouped);
    assert words[i..i] == [];
  }

  /** A word the scan stops at: no option, or a second group word. */
  lemma Refused(words: seq<Kind>, i: nat, grouped: bool)
    requires i < |words| && (words[i].Other? || (words[i].Group? && grouped))
    ensures forall n: nat :: !BuildFrom(words, i, grouped, n)
  {
    if words[i].Other? { Decided(words, i, grouped); } else { SkipGroup(words, i); }
  }

  /** The loop, for any classification of words. */
  method ScanWords(args: seq<string>, kindOf: string -> Kind) returns (command: int)
    ensures command == -1 || 0 <= command < |args|
    ensures forall n: nat :: BuildIn(Kinds(args, kindOf), false, n) <==> n == command
  {
    ghost var words := Kinds(args, kindOf);
    var grouped := false;
    var i := 0;
    assert words[0..] == words;
    while i < |args|
      invariant 0 <= i <= |args|
      invariant forall n: nat :: BuildIn(words, false, n) <==> BuildFrom(words, i, grouped, n)
    {
      var kind := kindOf(args[i]);
      if kind.Build? {
        Decided(words, i, grouped);
        return i;
      }
      if kind.Group? && !grouped {
        SkipGroup(words, i);
        grouped, i := true, i + 1;
        continue;
      }
      if kind.Group? || kind.Other? {
        Refused(words, i, grouped);
        return -1;
      }
      SkipOption(words, i, grouped);
      if kind.TwoWords? {
        i := i + 1;
        if i >= |args| { return -1; }
      }
      i := i + 1;
    }
    return -1;
  }

  /** The scan finds a build command exactly where the grammar has one. */
  method PodmanBuildCommand(args: seq<string>) returns (command: int)
    ensures command == -1 || 0 <= command < |args|
    ensures forall n: nat :: BuildAt(args, n) <==> n == command
  {
    command := ScanWords(args, KindOf);
  }

  /** The arguments handed on: those given, or those with the default put
      right behind the build word. */
  method PodmanWrapperArgs(args: seq<string>) returns (result: seq<string>)
    ensures result == args <==> forall n: nat :: !BuildAt(args, n)
    ensures forall n: nat :: BuildAt(args, n) ==>
              result == args[..n + 1] + ["--http-proxy=false"] + args[n + 1..] && BuildAt(result, n)
  {
    var command := PodmanBuildCommand(args);
    if command < 0 { return args; }
    assert BuildAt(args, command);
    result := args[..command + 1];
    result := result + [DEFAULT_FLAG];
    result := result + args[command + 1..];
    SameCommand(args, result, command);
  }

  lemma SameCommand(args: seq<string>, result: seq<string>, n: nat)
    requires BuildAt(args, n) && n < |result| && result[..n + 1] == args[..n + 1]
    ensures BuildAt(result, n)
  {
    assert forall i :: 0 <= i <= n ==> result[i] == result[..n + 1][i] == args[i];
    assert Kinds(result, KindOf)[..n] == Kinds(args, KindOf)[..n];
  }

  // ------------------------------------------------------- explicit choices

  /** How a build command reads its options, from left to right: which words
      take the next word as value, which set the proxy default, and whether
      options may follow an operand such as the build context. */
  datatype Reader = Reader(takesNext: string -> bool, sets: string -> Option<bool>, interspersed: bool)

  /** The settings a reader meets before "--". */
  function Settings(words: seq<string>, r: Reader): seq<bool> {
    if words == [] || words[0] == "--" then []
    else if !IsOption(words[0]) || words[0] == "-" then
      if r.interspersed then Settings(words[1..], r) else []
    else if r.takesNext(words[0]) then
      if |words| == 1 then [] else Settings(words[2..], r)
    else
      var set0 := r.sets(words[0]);
      (if set0.Some? then [set0.value] else []) + Settings(words[1..], r)
  }

  /** The last setting takes effect. */
  function Effective(words: seq<string>, r: Reader, default: bool): bool {
    var settings := Settings(words, r);
    if settings == [] then default else settings[|settings| - 1]
  }

  /** With the added word the proxy is off by default, and any choice the user
      made among the build's own options, wherever the reader allows them,
      still decides. */
  lemma ExplicitChoiceDecides(args: seq<string>, result: seq<string>, n: nat, r: Reader, default: bool)
    requires n < |args| && result == args[..n + 1] + ["--http-proxy=false"] + args[n + 1..]
    requires !r.takesNext("--http-proxy=false") && r.sets("--http-proxy=false") == Some(false)
    ensures Effective(result[n + 1..], r, default)
              == (if Settings(args[n + 1..], r) == [] then false else Effective(args[n + 1..], r, default))
  {
    var own := args[n + 1..];
    var handed := result[n + 1..];
    assert handed == [DEFAULT_FLAG] + own;
    assert handed[0] == DEFAULT_FLAG && handed[1..] == own;
    assert IsOption(DEFAULT_FLAG) && |DEFAULT_FLAG| == 18;
    assert Settings(handed, r) == [false] + Settings(own, r);
  }
}
