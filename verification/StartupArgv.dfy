/** The launch-argument parser shared by scripts/e2_reranker_evidence.py and
    scripts/e2_reranker_evidence_v2.py. A flag is spelled `--name value`, `--name=value` or
    `--name` alone; everything else is positional. */
module StartupArgv {
  import opened Outcomes
  import opened StableSort

  datatype FlagValue = Given(text: string) | On

  type Flags = map<string, FlagValue>

  /** One flag or one positional word, however it is spelled. */
  datatype Group = Word(text: string) | Flag(name: string, value: FlagValue)

  predicate IsFlag(token: string)
  {
    "--" <= token
  }

  lemma TwoDashes(token: string)
    ensures IsFlag(token) <==> |token| >= 2 && token[0] == '-' && token[1] == '-'
  {
  }

  function EqualsAt(token: string): (k: nat)
    ensures k <= |token| && (k < |token| ==> token[k] == '=')
    ensures forall i :: 0 <= i < k ==> token[i] != '='
  {
    if token == "" || token[0] == '=' then 0 else 1 + EqualsAt(token[1..])
  }

  /** What the tokens mean, read from the left. */
  function Groups(argv: seq<string>): seq<Group>
    decreases |argv|
  {
    if argv == [] then []
    else if !IsFlag(argv[0]) then [Word(argv[0])] + Groups(argv[1..])
    else if EqualsAt(argv[0]) < |argv[0]| then
      [Flag(argv[0][..EqualsAt(argv[0])], Given(argv[0][EqualsAt(argv[0]) + 1..]))] + Groups(argv[1..])
    else if |argv| > 1 && !IsFlag(argv[1]) then [Flag(argv[0], Given(argv[1]))] + Groups(argv[2..])
    else [Flag(argv[0], On)] + Groups(argv[1..])
  }

  /** Gathering flags and words; a repeated name is an error. */
  function Gather(flags: Flags, words: seq<string>, groups: seq<Group>): Result<(Flags, seq<string>)>
    decreases groups
  {
    if groups == [] then Ok((flags, words))
    else match groups[0]
      case Word(text) => Gather(flags, words + [text], groups[1..])
      case Flag(name, value) =>
        if name in flags then Err("startup_argv_duplicate_flag") else Gather(flags[name := value], words, groups[1..])
  }

  function Parsed(argv: seq<string>): Result<(Flags, seq<string>)>
  {
    Gather(map[], [], Groups(argv))
  }

  method ParseStartupArgv(argv: seq<string>) returns (r: Result<(Flags, seq<string>)>)
    ensures r == Parsed(argv)
  {
    var flags: Flags := map[];
    var positional: seq<string> := [];
    var index := 0;
    while index < |argv|
      invariant index <= |argv|
      invariant Parsed(argv) == Gather(flags, positional, Groups(argv[index..]))
    {
      var token := argv[index];
      assert argv[index..][1..] == argv[index + 1..];
      if !IsFlag(token) {
        positional := positional + [token];
        index := index + 1;
        continue;
      }
      var name, value := token, On;
      if EqualsAt(token) < |token| {
        name, value := token[..EqualsAt(token)], Given(token[EqualsAt(token) + 1..]);
      } else if index + 1 < |argv| && !IsFlag(argv[index + 1]) {
        assert argv[index..][2..] == argv[index + 2..];
        value := Given(argv[index + 1]);
        index := index + 1;
      }
      if name in flags {
        return Err("startup_argv_duplicate_flag");
      }
      flags := flags[name := value];
      index := index + 1;
    }
    assert argv[index..] == [];
    return Ok((flags, positional));
  }

  // ---- what a parse result says ----

  function Words(groups: seq<Group>): seq<string>
  {
    if groups == [] then [] else (if groups[0].Word? then [groups[0].text] else []) + Words(groups[1..])
  }

  ghost predicate DistinctNames(groups: seq<Group>)
  {
    forall i, j :: 0 <= i < j < |groups| && groups[i].Flag? && groups[j].Flag? ==> groups[i].name != groups[j].name
  }

  ghost predicate FlagsAre(flags: Flags, groups: seq<Group>)
  {
    && (forall name :: name in flags ==> Flag(name, flags[name]) in groups)
    && (forall g :: g in groups && g.Flag? ==> g.name in flags && flags[g.name] == g.value)
  }

  lemma {:induction false} GatherMeaning(flags: Flags, done: seq<Group>, words: seq<string>, groups: seq<Group>)
    requires FlagsAre(flags, done) && DistinctNames(done)
    ensures var r := Gather(flags, words, groups);
            if DistinctNames(done + groups) then
              r.Ok? && FlagsAre(r.value.0, done + groups) && r.value.1 == words + Words(groups)
            else r == Err("startup_argv_duplicate_flag")
    decreases groups
  {
    WordsStep(groups);
    hide FlagsAre, DistinctNames, Words;
    if groups == [] {
      assert done + groups == done && words + [] == words;
    } else {
      var more := done + [groups[0]];
      assert more + groups[1..] == done + groups;
      match groups[0]
      case Word(text) =>
        GrowWords(flags, done, text);
        assert words + Words(groups) == words + [text] + Words(groups[1..]);
        GatherMeaning(flags, more, words + [text], groups[1..]);
      case Flag(name, value) =>
        if name in flags {
          RepeatedName(flags, done, groups);
        } else {
          GrowFlags(flags, done, name, value);
          GatherMeaning(flags[name := value], more, words, groups[1..]);
        }
    }
  }

  lemma WordsStep(groups: seq<Group>)
    ensures Words([]) == []
    ensures groups != [] ==> Words(groups) == (if groups[0].Word? then [groups[0].text] else []) + Words(groups[1..])
  {
  }

  lemma GrowWords(flags: Flags, done: seq<Group>, text: string)
    requires FlagsAre(flags, done) && DistinctNames(done)
    ensures FlagsAre(flags, done + [Word(text)]) && DistinctNames(done + [Word(text)])
  {
    assert forall name, value :: Flag(name, value) in done ==> Flag(name, value) in done + [Word(text)];
  }

  lemma RepeatedName(flags: Flags, done: seq<Group>, groups: seq<Group>)
    requires FlagsAre(flags, done) && groups != [] && groups[0].Flag? && groups[0].name in flags
    ensures !DistinctNames(done + groups)
  {
    var all, name := done + groups, groups[0].name;
    var i :| 0 <= i < |done| && done[i] == Flag(name, flags[name]);
    assert all[i].name == all[|done|].name;
  }

  lemma GrowFlags(flags: Flags, done: seq<Group>, name: string, value: FlagValue)
    requires FlagsAre(flags, done) && DistinctNames(done) && name !in flags
    ensures FlagsAre(flags[name := value], done + [Flag(name, value)]) && DistinctNames(done + [Flag(name, value)])
  {
    var more := done + [Flag(name, value)];
    forall i | 0 <= i < |done| && done[i].Flag?
      ensures done[i].name != name
    {
      assert done[i] in done;
    }
    assert more[|done|] == Flag(name, value);
  }

  lemma ParsedMeaning(groups: seq<Group>)
    ensures var r := Gather(map[], [], groups);
            if DistinctNames(groups) then r.Ok? && FlagsAre(r.value.0, groups) && r.value.1 == Words(groups)
            else r == Err("startup_argv_duplicate_flag")
  {
    GatherMeaning(map[], [], [], groups);
    assert [] + groups == groups && [] + Words(groups) == Words(groups);
  }

  // ---- writing an argument list ----

  /** How a group can be spelled. */
  datatype Spelling =
    | Positional(text: string)
    | Spaced(name: string, text: string)
    | Joined(name: string, text: string)
    | Switch(name: string)

  function Meaning(s: Spelling): Group
  {
    match s
    case Positional(text) => Word(text)
    case Spaced(name, text) => Flag(name, Given(text))
    case Joined(name, text) => Flag(name, Given(text))
    case Switch(name) => Flag(name, On)
  }

  function Meanings(spellings: seq<Spelling>): (r: seq<Group>)
    ensures |r| == |spellings|
  {
    seq(|spellings|, i requires 0 <= i < |spellings| => Meaning(spellings[i]))
  }

  function Tokens(s: Spelling): seq<string>
  {
    match s
    case Positional(text) => [text]
    case Spaced(name, text) => [name, text]
    case Joined(name, text) => [name + "=" + text]
    case Switch(name) => [name]
  }

  function Render(spellings: seq<Spelling>): seq<string>
  {
    if spellings == [] then [] else Tokens(spellings[0]) + Render(spellings[1..])
  }

  predicate IsName(name: string)
  {
    IsFlag(name) && EqualsAt(name) == |name|
  }

  predicate Spellable(s: Spelling)
  {
    match s
    case Positional(text) => !IsFlag(text)
    case Spaced(name, text) => IsName(name) && !IsFlag(text)
    case Joined(name, _) => IsName(name)
    case Switch(name) => IsName(name)
  }

  /** Every group is spelled so that it reads back, and no switch stands before a word. */
  predicate Readable(spellings: seq<Spelling>)
  {
    && (forall i :: 0 <= i < |spellings| ==> Spellable(spellings[i]))
    && forall i :: 0 < i < |spellings| && spellings[i].Positional? ==> !spellings[i - 1].Switch?
  }

  lemma {:induction false} EqualsAtJoined(name: string, text: string)
    requires EqualsAt(name) == |name|
    ensures EqualsAt(name + "=" + text) == |name|
  {
    if name != "" {
      EqualsAtJoined(name[1..], text);
      assert (name + "=" + text)[1..] == name[1..] + "=" + text;
    }
  }

  lemma FirstGroup(s: Spelling, rest: seq<string>)
    requires Spellable(s)
    requires s.Switch? && rest != [] ==> IsFlag(rest[0])
    ensures Groups(Tokens(s) + rest) == [Meaning(s)] + Groups(rest)
  {
    var argv := Tokens(s) + rest;
    match s
    case Positional(text) => assert argv[1..] == rest;
    case Spaced(name, text) => assert argv[2..] == rest;
    case Joined(name, text) =>
      EqualsAtJoined(name, text);
      var token := name + "=" + text;
      assert argv[1..] == rest && argv[0] == token;
      assert token[..|name|] == name && token[|name| + 1..] == text;
      assert IsFlag(token) by { assert token[..2] == name[..2]; }
    case Switch(name) => assert argv[1..] == rest;
  }

  /** A readable rendering followed by more tokens is read as its groups, then the rest. */
  lemma {:induction false} RenderReadsBack(spellings: seq<Spelling>, rest: seq<string>)
    requires Readable(spellings)
    requires spellings != [] && spellings[|spellings| - 1].Switch? && rest != [] ==> IsFlag(rest[0])
    ensures Groups(Render(spellings) + rest) == Meanings(spellings) + Groups(rest)
  {
    if spellings == [] {
      assert Render(spellings) + rest == rest;
      assert Meanings(spellings) + Groups(rest) == Groups(rest);
    } else {
      RenderStep(spellings, rest);
      MeaningsStep(spellings, Groups(rest));
      ReadableRest(spellings);
      assert spellings[1..] != [] ==> spellings[1..][|spellings| - 2] == spellings[|spellings| - 1];
      hide *;
      var first, others := spellings[0], spellings[1..];
      RenderReadsBack(others, rest);
      assert spellings[0].Switch? && others != [] ==> (Render(others) + rest)[0] == Render(others)[0];
      assert spellings[0].Switch? && others == [] ==> Render(others) + rest == rest;
      FirstGroup(first, Render(others) + rest);
    }
  }

  lemma RenderStep(spellings: seq<Spelling>, rest: seq<string>)
    requires spellings != []
    ensures Render(spellings) + rest == Tokens(spellings[0]) + (Render(spellings[1..]) + rest)
    ensures Render([]) == []
  {
    hide Tokens;
  }

  lemma MeaningsStep(spellings: seq<Spelling>, more: seq<Group>)
    requires spellings != []
    ensures Meanings(spellings) + more == [Meaning(spellings[0])] + (Meanings(spellings[1..]) + more)
  {
    hide Meaning;
    assert Meanings(spellings) == [Meaning(spellings[0])] + Meanings(spellings[1..]);
  }

  lemma ReadableRest(spellings: seq<Spelling>)
    requires spellings != [] && Readable(spellings)
    ensures Spellable(spellings[0]) && Readable(spellings[1..])
    ensures spellings[0].Switch? && spellings[1..] != [] ==>
              Render(spellings[1..]) != [] && IsFlag(Render(spellings[1..])[0])
  {
    var others := spellings[1..];
    assert forall i :: 0 < i < |others| ==> others[i] == spellings[i + 1] && others[i - 1] == spellings[i];
    if others != [] {
      assert others[0] == spellings[1];
      StartsWithFlag(others);
    }
  }

  lemma StartsWithFlag(spellings: seq<Spelling>)
    requires spellings != [] && Spellable(spellings[0])
    ensures Render(spellings) != [] && (!spellings[0].Positional? ==> IsFlag(Render(spellings)[0]))
  {
    if spellings[0].Joined? {
      assert (spellings[0].name + "=" + spellings[0].text)[..2] == spellings[0].name[..2];
    }
  }

  /** Parsing what was rendered gives back exactly the flags and words. */
  lemma ParseRendered(spellings: seq<Spelling>)
    requires Readable(spellings)
    ensures var r := Parsed(Render(spellings));
            if DistinctNames(Meanings(spellings)) then
              r.Ok? && FlagsAre(r.value.0, Meanings(spellings)) && r.value.1 == Words(Meanings(spellings))
            else r == Err("startup_argv_duplicate_flag")
  {
    RenderReadsBack(spellings, []);
    assert Render(spellings) + [] == Render(spellings);
    assert Meanings(spellings) + [] == Meanings(spellings);
    ParsedMeaning(Meanings(spellings));
  }

  /** Two readable renderings of the same flags, in any order and any spelling, with the same
      words in the same order, parse to the same result. */
  lemma OrderAndSpellingFree(a: seq<Spelling>, b: seq<Spelling>)
    requires Readable(a) && Readable(b)
    requires multiset(Meanings(a)) == multiset(Meanings(b)) && Words(Meanings(a)) == Words(Meanings(b))
    ensures Parsed(Render(a)) == Parsed(Render(b))
  {
    hide Parsed, Render, Meanings, Words, FlagsAre, DistinctNames, Readable;
    ParseRendered(a);
    ParseRendered(b);
    if DistinctNames(Meanings(a)) {
      SameNames(Meanings(a), Meanings(b));
      SameFlags(Parsed(Render(a)).value.0, Parsed(Render(b)).value.0, Meanings(a), Meanings(b));
      assert Parsed(Render(a)).value == Parsed(Render(b)).value;
    } else if DistinctNames(Meanings(b)) {
      SameNames(Meanings(b), Meanings(a));
    }
  }

  lemma SameFlags(x: Flags, y: Flags, a: seq<Group>, b: seq<Group>)
    requires multiset(a) == multiset(b) && FlagsAre(x, a) && FlagsAre(y, b)
    ensures x == y
  {
    SameElements(a, b);
    forall name
      ensures name in x <==> name in y
      ensures name in x ==> x[name] == y[name]
    {
      if name in x {
        assert Flag(name, x[name]) in Elements(b);
      }
      if name in y {
        assert Flag(name, y[name]) in Elements(a);
      }
    }
  }

  lemma SameNames(a: seq<Group>, b: seq<Group>)
    requires multiset(a) == multiset(b) && DistinctNames(a)
    ensures DistinctNames(b)
  {
    ApartPermutes((x: Group, y: Group) => x.Flag? && y.Flag? ==> x.name != y.name, a, b);
  }

  lemma {:induction false} RenderAppend(a: seq<Spelling>, b: seq<Spelling>)
    ensures Render(a + b) == Render(a) + Render(b)
  {
    hide Tokens;
    if a == [] {
      assert a + b == b;
    } else {
      RenderAppend(a[1..], b);
      assert (a + b)[1..] == a[1..] + b;
    }
  }

  /** A value that looks like a flag is not read as a value: its flag is left a bare switch. */
  lemma MisreadValue(spellings: seq<Spelling>, k: nat)
    requires k < |spellings| && Readable(spellings[..k])
    requires spellings[k].Spaced? && IsName(spellings[k].name) && IsFlag(spellings[k].text)
    ensures Flag(spellings[k].name, On) in Groups(Render(spellings))
  {
    hide Readable;
    var name, text := spellings[k].name, spellings[k].text;
    var rest := Render(spellings[k..]);
    assert spellings == spellings[..k] + spellings[k..];
    RenderAppend(spellings[..k], spellings[k..]);
    assert rest == [name, text] + Render(spellings[k..][1..]);
    RenderReadsBack(spellings[..k], rest);
    assert Groups(rest)[0] == Flag(name, On);
  }
}
