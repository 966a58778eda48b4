/** The two launch-argument validators: version 1, scripts/e2_reranker_evidence.py, which
    accepts any order, and version 2, scripts/e2_reranker_evidence_v2.py, which accepts one
    argument list only. */
module EvidenceManifest {
  import opened Outcomes
  import opened StartupArgv

  // ---- version 1 ----

  datatype ManifestV1 = ManifestV1(modelId: string, revision: string, servedName: string, dtype: string,
                                   tensorParallelSize: string, maxModelLen: string, maxNumSeqs: string, seed: string)

  predicate Has(flags: Flags, name: string, value: FlagValue)
  {
    name in flags && flags[name] == value
  }

  predicate Forbidden(name: string)
  {
    name in {"--enable-prefix-caching", "--enable-lora", "--enable-auto-tool-choice", "--chat-template",
             "--truncate-prompt-tokens"}
    || "--speculative" <= name || "--lora-" <= name
  }

  function CheckV1(m: ManifestV1, flags: Flags, positional: seq<string>): Result<()>
  {
    if !(Has(flags, "--revision", Given(m.revision)) && Has(flags, "--served-model-name", Given(m.servedName))
         && Has(flags, "--dtype", Given(m.dtype)) && Has(flags, "--tensor-parallel-size", Given(m.tensorParallelSize))
         && Has(flags, "--max-model-len", Given(m.maxModelLen)) && Has(flags, "--max-num-seqs", Given(m.maxNumSeqs))
         && Has(flags, "--seed", Given(m.seed))) then Err("startup_argv_resolved_mismatch")
    else if !Has(flags, "--enforce-eager", On) || !Has(flags, "--disable-log-requests", On) then
      Err("startup_argv_resolved_mismatch")
    else if m.modelId !in positional && !Has(flags, "--model", Given(m.modelId)) then Err("startup_argv_model_mismatch")
    else if "--quantization" in flags && flags["--quantization"] != Given("none") then
      Err("startup_argv_resolved_mismatch")
    else if exists name :: name in flags && Forbidden(name) then Err("startup_argv_forbidden_feature")
    else Ok(())
  }

  function ValidateV1(m: ManifestV1, argv: seq<string>): Result<()>
  {
    var parsed := Parsed(argv);
    if parsed.Err? then Err(parsed.error) else CheckV1(m, parsed.value.0, parsed.value.1)
  }

  /** The verdict does not depend on the order of the flags nor on how each is spelled, as
      long as values do not look like flags and no switch stands before a word. */
  lemma V1OrderAndSpellingFree(m: ManifestV1, a: seq<Spelling>, b: seq<Spelling>)
    requires Readable(a) && Readable(b)
    requires multiset(Meanings(a)) == multiset(Meanings(b)) && Words(Meanings(a)) == Words(Meanings(b))
    ensures ValidateV1(m, Render(a)) == ValidateV1(m, Render(b))
  {
    hide *;
    OrderAndSpellingFree(a, b);
    SameParseSameVerdict(m, Render(a), Render(b));
  }

  /** The verdict, read off the groups of the list: the first thing that is wrong with it, or Ok
      when names are distinct, every required flag has the manifest's value, both switches are
      on, the model is named, quantization is "none" if given, and no feature is forbidden. */
  lemma V1VerdictExactly(m: ManifestV1, argv: seq<string>)
    ensures var groups := Groups(argv);
            ValidateV1(m, argv) ==
            if !DistinctNames(groups) then Err("startup_argv_duplicate_flag")
            else if !(&& Flag("--revision", Given(m.revision)) in groups
                      && Flag("--served-model-name", Given(m.servedName)) in groups
                      && Flag("--dtype", Given(m.dtype)) in groups
                      && Flag("--tensor-parallel-size", Given(m.tensorParallelSize)) in groups
                      && Flag("--max-model-len", Given(m.maxModelLen)) in groups
                      && Flag("--max-num-seqs", Given(m.maxNumSeqs)) in groups
                      && Flag("--seed", Given(m.seed)) in groups
                      && Flag("--enforce-eager", On) in groups
                      && Flag("--disable-log-requests", On) in groups) then Err("startup_argv_resolved_mismatch")
            else if !(Word(m.modelId) in groups || Flag("--model", Given(m.modelId)) in groups) then
              Err("startup_argv_model_mismatch")
            else if exists value :: Flag("--quantization", value) in groups && value != Given("none") then
              Err("startup_argv_resolved_mismatch")
            else if exists g :: g in groups && g.Flag? && NamesForbidden(g.name) then
              Err("startup_argv_forbidden_feature")
            else Ok(())
  {
    hide Groups, Gather, CheckV1, DistinctNames, FlagsAre, Words, NamesForbidden;
    var groups := Groups(argv);
    ParsedMeaning(groups);
    if DistinctNames(groups) {
      V1Checks(m, Parsed(argv).value.0, Parsed(argv).value.1, groups);
    }
  }

  lemma V1Checks(m: ManifestV1, flags: Flags, words: seq<string>, groups: seq<Group>)
    requires FlagsAre(flags, groups) && words == Words(groups)
    ensures CheckV1(m, flags, words) ==
            if !(&& Flag("--revision", Given(m.revision)) in groups
                 && Flag("--served-model-name", Given(m.servedName)) in groups
                 && Flag("--dtype", Given(m.dtype)) in groups
                 && Flag("--tensor-parallel-size", Given(m.tensorParallelSize)) in groups
                 && Flag("--max-model-len", Given(m.maxModelLen)) in groups
                 && Flag("--max-num-seqs", Given(m.maxNumSeqs)) in groups
                 && Flag("--seed", Given(m.seed)) in groups
                 && Flag("--enforce-eager", On) in groups
                 && Flag("--disable-log-requests", On) in groups) then Err("startup_argv_resolved_mismatch")
            else if !(Word(m.modelId) in groups || Flag("--model", Given(m.modelId)) in groups) then
              Err("startup_argv_model_mismatch")
            else if exists value :: Flag("--quantization", value) in groups && value != Given("none") then
              Err("startup_argv_resolved_mismatch")
            else if exists g :: g in groups && g.Flag? && NamesForbidden(g.name) then
              Err("startup_argv_forbidden_feature")
            else Ok(())
  {
    hide Words, Forbidden, FlagsAre, NamesForbidden, Has;
    InGroups(flags, groups, "--revision", Given(m.revision));
    InGroups(flags, groups, "--served-model-name", Given(m.servedName));
    InGroups(flags, groups, "--dtype", Given(m.dtype));
    InGroups(flags, groups, "--tensor-parallel-size", Given(m.tensorParallelSize));
    InGroups(flags, groups, "--max-model-len", Given(m.maxModelLen));
    InGroups(flags, groups, "--max-num-seqs", Given(m.maxNumSeqs));
    InGroups(flags, groups, "--seed", Given(m.seed));
    InGroups(flags, groups, "--enforce-eager", On);
    InGroups(flags, groups, "--disable-log-requests", On);
    InGroups(flags, groups, "--model", Given(m.modelId));
    OtherThan(flags, groups, "--quantization", Given("none"));
    WordsIn(groups, m.modelId);
    NoForbidden(flags, groups);
  }

  predicate NamesForbidden(name: string)
  {
    || name == "--enable-prefix-caching" || name == "--enable-lora" || name == "--enable-auto-tool-choice"
    || name == "--chat-template" || name == "--truncate-prompt-tokens"
    || "--speculative" <= name || "--lora-" <= name
  }

  lemma InGroups(flags: Flags, groups: seq<Group>, name: string, value: FlagValue)
    requires FlagsAre(flags, groups)
    ensures Has(flags, name, value) <==> Flag(name, value) in groups
  {
  }

  lemma OtherThan(flags: Flags, groups: seq<Group>, name: string, value: FlagValue)
    requires FlagsAre(flags, groups)
    ensures (name in flags && flags[name] != value)
            <==> exists other :: Flag(name, other) in groups && other != value
  {
    if name in flags {
      assert Flag(name, flags[name]) in groups;
    }
  }

  lemma NoForbidden(flags: Flags, groups: seq<Group>)
    requires FlagsAre(flags, groups)
    ensures (exists name :: name in flags && Forbidden(name))
            <==> exists g :: g in groups && g.Flag? && NamesForbidden(g.name)
  {
    if name :| name in flags && Forbidden(name) {
      assert Flag(name, flags[name]) in groups && NamesForbidden(Flag(name, flags[name]).name);
    }
    if g :| g in groups && g.Flag? && NamesForbidden(g.name) {
      assert g.name in flags && Forbidden(g.name);
    }
  }

  lemma {:induction false} WordsIn(groups: seq<Group>, text: string)
    ensures text in Words(groups) <==> Word(text) in groups
  {
    if groups != [] {
      WordsIn(groups[1..], text);
      assert groups == [groups[0]] + groups[1..];
    }
  }

  lemma SameParseSameVerdict(m: ManifestV1, a: seq<string>, b: seq<string>)
    requires Parsed(a) == Parsed(b)
    ensures ValidateV1(m, a) == ValidateV1(m, b)
  {
  }

  // ---- version 2 ----

  const MODEL_ID := "Qwen/Qwen3-Reranker-4B"
  const MODEL_REVISION := "22e683669bc0f0bd69640a1354a6d0aebcfeede5"
  const SERVED_NAME := "sparkclaw-reranker"

  datatype Overrides = Overrides(architecture: string, classifierFromToken: seq<string>, isOriginal: bool,
                                 problemType: string)

  datatype PoolerConfig = PoolerConfig(logitMean: Option<int>, logitSigma: Option<int>, seqPoolingType: string,
                                       task: string, useActivation: bool)

  /** The JSON objects that can stand in a flag. */
  datatype Object = HfOverrides(overrides: Overrides) | Pooler(config: PoolerConfig) | OtherObject(text: string)

  /** The JSON library: printing an object in canonical form, reading a text, and Python's
      equality of objects, under which 1 equals true. Reading yields None for a value that
      is not an object, and the code of the error for a text that it refuses. */
  datatype Json = Json(
    dump: Object -> string,
    load: string -> Result<Option<Object>>,
    equal: (Object, Object) -> bool)

  /** Printing and reading are inverse, an object equals itself and never looks like a flag. */
  ghost predicate Faithful(json: Json)
  {
    forall o :: json.load(json.dump(o)) == Ok(Some(o)) && json.equal(o, o) && !IsFlag(json.dump(o))
  }

  datatype Manifest = Manifest(
    overrides: Overrides, method_: string, numLabels: int,
    config: PoolerConfig, affineCalibration: bool, secondaryActivation: bool,
    snapshotRoot: string, templateCatalogPath: string, templateRuntimePath: string,
    blockSize: string, cacheDtype: string, hashAlgorithm: string, cacheEnabled: bool)

  function StripSlashes(s: string): string
  {
    if s != "" && s[|s| - 1] == '/' then StripSlashes(s[..|s| - 1]) else s
  }

  function TemplatePath(m: Manifest): string
  {
    StripSlashes(m.snapshotRoot) + "/" + m.templateCatalogPath
  }

  function CacheFlag(m: Manifest): string
  {
    if m.cacheEnabled then "--enable-prefix-caching" else "--no-enable-prefix-caching"
  }

  function ExpectedSpelling(json: Json, m: Manifest): (r: seq<Spelling>)
    ensures |r| == 20
  {
    [ Positional("vllm"),
      Positional("serve"),
      Positional(MODEL_ID),
      Spaced("--revision", MODEL_REVISION),
      Spaced("--served-model-name", SERVED_NAME),
      Spaced("--runner", "pooling"),
      Spaced("--hf-overrides", json.dump(HfOverrides(m.overrides))),
      Spaced("--chat-template", TemplatePath(m)),
      Spaced("--pooler-config", json.dump(Pooler(m.config))),
      Spaced("--dtype", "bfloat16"),
      Spaced("--tensor-parallel-size", "1"),
      Spaced("--max-model-len", "8192"),
      Spaced("--max-num-seqs", "1"),
      Spaced("--seed", "0"),
      Spaced("--block-size", m.blockSize),
      Spaced("--kv-cache-dtype", m.cacheDtype),
      Spaced("--prefix-caching-hash-algo", m.hashAlgorithm),
      Switch(CacheFlag(m)),
      Switch("--enforce-eager"),
      Switch("--disable-log-requests") ]
  }

  function ExpectedArgv(json: Json, m: Manifest): seq<string>
  {
    Render(ExpectedSpelling(json, m))
  }

  function Allowed(m: Manifest): set<string>
  {
    { "--block-size", "--chat-template", "--disable-log-requests", "--dtype", "--enforce-eager", "--hf-overrides",
      "--kv-cache-dtype", "--max-model-len", "--max-num-seqs", "--pooler-config", "--prefix-caching-hash-algo",
      "--revision", "--runner", "--seed", "--served-model-name", "--tensor-parallel-size", CacheFlag(m) }
  }

  /** A flag whose value must be the canonical text of an object. */
  function ParseJsonFlag(json: Json, value: FlagValue): Result<Object>
  {
    if value.On? then Err("startup_argv_json_flag_invalid")
    else
      var parsed := json.load(value.text);
      if parsed.Err? then Err(parsed.error)
      else if parsed.value.None? || json.dump(parsed.value.value) != value.text then
        Err("startup_argv_json_flag_noncanonical")
      else Ok(parsed.value.value)
  }

  predicate RequiredValues(m: Manifest, flags: Flags)
  {
    && Has(flags, "--revision", Given(MODEL_REVISION))
    && Has(flags, "--served-model-name", Given(SERVED_NAME))
    && Has(flags, "--runner", Given("pooling"))
    && Has(flags, "--dtype", Given("bfloat16"))
    && Has(flags, "--tensor-parallel-size", Given("1"))
    && Has(flags, "--max-model-len", Given("8192"))
    && Has(flags, "--max-num-seqs", Given("1"))
    && Has(flags, "--seed", Given("0"))
    && Has(flags, "--block-size", Given(m.blockSize))
    && Has(flags, "--kv-cache-dtype", Given(m.cacheDtype))
    && Has(flags, "--prefix-caching-hash-algo", Given(m.hashAlgorithm))
  }

  predicate DerivedClassifier(m: Manifest)
  {
    m.method_ == "from_2_way_softmax" && m.numLabels == 1 && m.overrides.classifierFromToken == ["no", "yes"]
  }

  predicate SingleSigmoid(m: Manifest)
  {
    !m.affineCalibration && m.config.logitMean.None? && m.config.logitSigma.None? && !m.secondaryActivation
  }

  function CheckV2(json: Json, m: Manifest, flags: Flags, positional: seq<string>): Result<()>
  {
    if !(Allowed(m) <= flags.Keys) then Err("startup_argv_required_flag_missing")
    else if !(flags.Keys <= Allowed(m)) then Err("startup_argv_unknown_flag")
    else if positional != ["vllm", "serve", MODEL_ID] then Err("startup_argv_model_mismatch")
    else if !RequiredValues(m, flags) then Err("startup_argv_resolved_mismatch")
    else if !Has(flags, "--enforce-eager", On) || !Has(flags, "--disable-log-requests", On) then
      Err("startup_argv_resolved_mismatch")
    else if !Has(flags, CacheFlag(m), On) then Err("startup_argv_cache_mismatch")
    else
      var overrides := ParseJsonFlag(json, flags["--hf-overrides"]);
      if overrides.Err? then Err(overrides.error)
      else if !json.equal(overrides.value, HfOverrides(m.overrides)) || !DerivedClassifier(m) then
        Err("startup_argv_hf_overrides_mismatch")
      else
        var config := ParseJsonFlag(json, flags["--pooler-config"]);
        if config.Err? then Err(config.error)
        else if !json.equal(config.value, Pooler(m.config)) || !SingleSigmoid(m) then
          Err("startup_argv_pooler_config_mismatch")
        else if m.templateRuntimePath != TemplatePath(m) || flags["--chat-template"] != Given(TemplatePath(m)) then
          Err("startup_argv_chat_template_mismatch")
        else Ok(())
  }

  function ValidateV2(json: Json, m: Manifest, argv: seq<string>): Result<()>
  {
    var parsed := Parsed(argv);
    if parsed.Err? then Err(parsed.error)
    else
      var checked := CheckV2(json, m, parsed.value.0, parsed.value.1);
      if checked.Err? then checked
      else if argv != ExpectedArgv(json, m) then Err("startup_argv_order_mismatch")
      else Ok(())
  }

  /** What a manifest must say of itself. */
  predicate Coherent(m: Manifest)
  {
    DerivedClassifier(m) && SingleSigmoid(m) && m.templateRuntimePath == TemplatePath(m)
  }

  /** No value that is written behind a flag looks like a flag itself. */
  predicate PlainValues(m: Manifest)
  {
    !IsFlag(TemplatePath(m)) && !IsFlag(m.blockSize) && !IsFlag(m.cacheDtype) && !IsFlag(m.hashAlgorithm)
  }

  /** The expected list, token by token. */
  lemma ExpectedTokens(json: Json, m: Manifest)
    ensures ExpectedArgv(json, m)
         == TokensTo5() + TokensTo10(json, m) + TokensTo15(m) + TokensTo20(m)
  {
    hide ExpectedSpelling, TokensTo5, TokensTo10, TokensTo15, TokensTo20, Render;
    FirstTokens(json, m);
    NextTokens(json, m);
    RenderParts(ExpectedSpelling(json, m));
  }

  lemma RenderParts(s: seq<Spelling>)
    requires |s| == 20
    ensures Render(s) == Render(s[..5]) + Render(s[5..10]) + Render(s[10..15]) + Render(s[15..])
  {
    hide Render;
    RenderAppend(s[..5], s[5..10]);
    RenderAppend(s[..10], s[10..15]);
    RenderAppend(s[..15], s[15..]);
    assert s[..5] + s[5..10] == s[..10] && s[..10] + s[10..15] == s[..15] && s[..15] + s[15..] == s;
  }

  function TokensTo5(): seq<string>
  {
    ["vllm", "serve", "Qwen/Qwen3-Reranker-4B", "--revision", "22e683669bc0f0bd69640a1354a6d0aebcfeede5",
     "--served-model-name", "sparkclaw-reranker"]
  }

  function TokensTo10(json: Json, m: Manifest): seq<string>
  {
    ["--runner", "pooling", "--hf-overrides", json.dump(HfOverrides(m.overrides)),
     "--chat-template", StripSlashes(m.snapshotRoot) + "/" + m.templateCatalogPath,
     "--pooler-config", json.dump(Pooler(m.config)), "--dtype", "bfloat16"]
  }

  function TokensTo15(m: Manifest): seq<string>
  {
    ["--tensor-parallel-size", "1", "--max-model-len", "8192", "--max-num-seqs", "1", "--seed", "0",
     "--block-size", m.blockSize]
  }

  function TokensTo20(m: Manifest): seq<string>
  {
    ["--kv-cache-dtype", m.cacheDtype, "--prefix-caching-hash-algo", m.hashAlgorithm,
     if m.cacheEnabled then "--enable-prefix-caching" else "--no-enable-prefix-caching",
     "--enforce-eager", "--disable-log-requests"]
  }

  lemma FirstTokens(json: Json, m: Manifest)
    ensures Render(ExpectedSpelling(json, m)[..5]) == TokensTo5()
    ensures Render(ExpectedSpelling(json, m)[5..10]) == TokensTo10(json, m)
  {
    RenderFive(ExpectedSpelling(json, m)[..5]);
    RenderFive(ExpectedSpelling(json, m)[5..10]);
  }

  lemma NextTokens(json: Json, m: Manifest)
    ensures Render(ExpectedSpelling(json, m)[10..15]) == TokensTo15(m)
    ensures Render(ExpectedSpelling(json, m)[15..]) == TokensTo20(m)
  {
    RenderFive(ExpectedSpelling(json, m)[10..15]);
    RenderFive(ExpectedSpelling(json, m)[15..]);
  }

  lemma RenderFive(s: seq<Spelling>)
    requires |s| == 5
    ensures Render(s) == Tokens(s[0]) + (Tokens(s[1]) + (Tokens(s[2]) + (Tokens(s[3]) + Tokens(s[4]))))
  {
    hide Tokens;
    RenderFirst(s, s[1..]);
    RenderFirst(s[1..], s[2..]);
    RenderFirst(s[2..], s[3..]);
    RenderFirst(s[3..], s[4..]);
    RenderFirst(s[4..], []);
    hide Render;
    assert Tokens(s[4]) + Render([]) == Tokens(s[4]) by { RenderNone(); }
  }

  lemma RenderFirst(s: seq<Spelling>, rest: seq<Spelling>)
    requires s != [] && s[1..] == rest
    ensures Render(s) == Tokens(s[0]) + Render(rest)
  {
  }

  lemma RenderNone()
    ensures Render([]) == []
  {
  }

  /** Every slash at the end of the snapshot root goes. */
  lemma {:induction false} StripSlashesExactly(root: string, slashes: string)
    requires (root != "" ==> root[|root| - 1] != '/') && forall i :: 0 <= i < |slashes| ==> slashes[i] == '/'
    ensures StripSlashes(root + slashes) == root
  {
    if slashes == "" {
      assert root + slashes == root;
    } else {
      StripSlashesExactly(root, slashes[..|slashes| - 1]);
      assert (root + slashes)[..|root + slashes| - 1] == root + slashes[..|slashes| - 1];
    }
  }

  // ---- the expected list reads back ----

  lemma {:induction false} NameIsName(name: string)
    requires "--" <= name && forall i :: 0 <= i < |name| ==> name[i] != '='
    ensures IsName(name)
  {
  }

  /** Where a flag stands in the expected list. */
  function Slot(name: string): int
  {
    if |name| < 3 then 0
    else match |name|
      case 6 => 13
      case 7 => 9
      case 8 => 5
      case 10 => 3
      case 12 => 14
      case 14 => if name[2] == 'h' then 6 else 12
      case 15 => if name[2] == 'c' then 7 else if name[2] == 'p' then 8 else if name[2] == 'm' then 11 else 18
      case 16 => 15
      case 19 => 4
      case 22 => if name[2] == 't' then 10 else 19
      case 23 => 17
      case 26 => if name[2] == 'p' then 16 else 17
      case _ => 0
  }

  ghost predicate NamedAt(json: Json, m: Manifest, i: nat)
    requires 3 <= i < 20
  {
    var s := ExpectedSpelling(json, m)[i];
    (i < 17 ==> s.Spaced?) && (i >= 17 ==> s.Switch?) && Slot(s.name) == i && IsName(s.name)
  }

  lemma NamesTo7(json: Json, m: Manifest, i: nat)
    requires 3 <= i < 7
    ensures NamedAt(json, m, i)
  {
    hide EqualsAt, TemplatePath, CacheFlag;
    NameIsName(ExpectedSpelling(json, m)[i].name);
  }

  lemma NamesTo11(json: Json, m: Manifest, i: nat)
    requires 7 <= i < 11
    ensures NamedAt(json, m, i)
  {
    hide EqualsAt, TemplatePath, CacheFlag;
    NameIsName(ExpectedSpelling(json, m)[i].name);
  }

  lemma NamesTo14(json: Json, m: Manifest, i: nat)
    requires 11 <= i < 14
    ensures NamedAt(json, m, i)
  {
    hide EqualsAt, TemplatePath, CacheFlag;
    NameIsName(ExpectedSpelling(json, m)[i].name);
  }

  lemma NamesTo17(json: Json, m: Manifest, i: nat)
    requires 14 <= i < 17
    ensures NamedAt(json, m, i)
  {
    hide EqualsAt, TemplatePath, CacheFlag;
    NameIsName(ExpectedSpelling(json, m)[i].name);
  }

  lemma CacheFlagNamed(json: Json, m: Manifest)
    ensures NamedAt(json, m, 17)
  {
    hide EqualsAt, TemplatePath;
    if m.cacheEnabled {
      NameIsName("--enable-prefix-caching");
    } else {
      NameIsName("--no-enable-prefix-caching");
    }
  }

  lemma NamesTo20(json: Json, m: Manifest, i: nat)
    requires 18 <= i < 20
    ensures NamedAt(json, m, i)
  {
    hide EqualsAt, TemplatePath, CacheFlag;
    NameIsName(ExpectedSpelling(json, m)[i].name);
  }

  lemma NamesAt(json: Json, m: Manifest, i: nat)
    requires 3 <= i < 20
    ensures var s := ExpectedSpelling(json, m)[i];
            && (i < 17 ==> s.Spaced?) && (i >= 17 ==> s.Switch?)
            && Slot(s.name) == i && IsName(s.name)
  {
    assert NamedAt(json, m, i) by {
      hide *;
      if i < 7 {
        NamesTo7(json, m, i);
      } else if i < 11 {
        NamesTo11(json, m, i);
      } else if i < 14 {
        NamesTo14(json, m, i);
      } else if i < 17 {
        NamesTo17(json, m, i);
      } else if i == 17 {
        CacheFlagNamed(json, m);
      } else {
        NamesTo20(json, m, i);
      }
    }
    hide Slot, IsName, ExpectedSpelling;
  }

  lemma ExpectedDistinct(json: Json, m: Manifest)
    ensures DistinctNames(Meanings(ExpectedSpelling(json, m)))
  {
    hide Slot, IsName;
    var groups := Meanings(ExpectedSpelling(json, m));
    forall i, j | 0 <= i < j < |groups| && groups[i].Flag? && groups[j].Flag?
      ensures groups[i].name != groups[j].name
    {
      NamesAt(json, m, i);
      NamesAt(json, m, j);
    }
  }

  /** Values at the fixed positions never look like flags; the others do not if they are plain. */
  lemma TextsAt(json: Json, m: Manifest, i: nat)
    requires Faithful(json) && i < 17
    requires i == 7 ==> !IsFlag(TemplatePath(m))
    requires i == 14 ==> !IsFlag(m.blockSize)
    requires i == 15 ==> !IsFlag(m.cacheDtype)
    requires i == 16 ==> !IsFlag(m.hashAlgorithm)
    ensures !IsFlag(ExpectedSpelling(json, m)[i].text)
  {
    hide TemplatePath;
    if i == 6 {
      assert !IsFlag(json.dump(HfOverrides(m.overrides)));
    } else if i == 8 {
      assert !IsFlag(json.dump(Pooler(m.config)));
    } else if i != 7 && i < 14 {
      NotAFlag(ExpectedSpelling(json, m)[i].text);
    }
  }

  lemma NotAFlag(s: string)
    requires s != "" && s[0] != '-'
    ensures !IsFlag(s)
  {
  }

  lemma PrefixReadable(json: Json, m: Manifest, k: nat)
    requires Faithful(json) && k <= 20
    requires k > 7 ==> !IsFlag(TemplatePath(m))
    requires k > 14 ==> !IsFlag(m.blockSize)
    requires k > 15 ==> !IsFlag(m.cacheDtype)
    requires k > 16 ==> !IsFlag(m.hashAlgorithm)
    ensures Readable(ExpectedSpelling(json, m)[..k])
  {
    hide Slot, TemplatePath, Faithful, IsName, IsFlag;
    var spelling := ExpectedSpelling(json, m)[..k];
    forall i | 0 <= i < |spelling|
      ensures Spellable(spelling[i]) && (i > 0 && spelling[i].Positional? ==> !spelling[i - 1].Switch?)
    {
      if i < 17 {
        TextsAt(json, m, i);
      }
      if i >= 3 {
        NamesAt(json, m, i);
      }
    }
  }

  /** With plain values the expected list passes every check that comes before the final
      comparison: flags, JSON, positional words and switches. */
  lemma ExpectedPasses(json: Json, m: Manifest)
    requires Faithful(json) && PlainValues(m) && Coherent(m)
    ensures ValidateV2(json, m, ExpectedArgv(json, m)) == Ok(())
  {
    var spelling := ExpectedSpelling(json, m);
    var groups := Meanings(spelling);
    PrefixReadable(json, m, 20);
    assert spelling[..20] == spelling;
    ExpectedDistinct(json, m);
    ParseRendered(spelling);
    ExpectedWords(json, m);
    ExpectedChecks(json, m, Parsed(ExpectedArgv(json, m)).value.0);
  }

  lemma ExpectedWords(json: Json, m: Manifest)
    ensures Words(Meanings(ExpectedSpelling(json, m))) == ["vllm", "serve", MODEL_ID]
  {
    var groups := Meanings(ExpectedSpelling(json, m));
    NoWords(groups[3..]);
    assert groups[2..][1..] == groups[3..] && groups[1..][1..] == groups[2..];
    assert Words(groups[2..]) == [MODEL_ID] + Words(groups[3..]);
    assert Words(groups[1..]) == ["serve"] + Words(groups[2..]);
    assert Words(groups) == ["vllm"] + Words(groups[1..]);
  }

  lemma {:induction false} NoWords(groups: seq<Group>)
    requires forall i :: 0 <= i < |groups| ==> groups[i].Flag?
    ensures Words(groups) == []
  {
    if groups != [] {
      NoWords(groups[1..]);
    }
  }

  /** Flag i of the expected list is read with its value. */
  lemma FlagAt(json: Json, m: Manifest, flags: Flags, i: nat)
    requires FlagsAre(flags, Meanings(ExpectedSpelling(json, m))) && 3 <= i < 20
    ensures match ExpectedSpelling(json, m)[i]
            case Spaced(name, text) => Has(flags, name, Given(text))
            case Switch(name) => Has(flags, name, On)
            case _ => false
  {
    hide Slot, TemplatePath, IsName;
    NamesAt(json, m, i);
    var groups := Meanings(ExpectedSpelling(json, m));
    assert groups[i] in groups;
  }

  lemma NameAllowed(json: Json, m: Manifest, i: nat)
    requires 3 <= i < 20
    ensures Meaning(ExpectedSpelling(json, m)[i]).Flag? && Meaning(ExpectedSpelling(json, m)[i]).name in Allowed(m)
  {
    hide TemplatePath, CacheFlag;
  }

  lemma OnlyAllowed(json: Json, m: Manifest, flags: Flags)
    requires FlagsAre(flags, Meanings(ExpectedSpelling(json, m)))
    ensures flags.Keys <= Allowed(m)
  {
    hide TemplatePath, CacheFlag, Allowed;
    var groups := Meanings(ExpectedSpelling(json, m));
    forall name | name in flags
      ensures name in Allowed(m)
    {
      assert Flag(name, flags[name]) in groups;
      var i :| 0 <= i < |groups| && groups[i] == Flag(name, flags[name]);
      assert i >= 3;
      NameAllowed(json, m, i);
    }
  }

  lemma ExpectedChecks(json: Json, m: Manifest, flags: Flags)
    requires Faithful(json) && Coherent(m)
    requires FlagsAre(flags, Meanings(ExpectedSpelling(json, m)))
    ensures CheckV2(json, m, flags, ["vllm", "serve", MODEL_ID]) == Ok(())
  {
    hide TemplatePath, CacheFlag, FlagsAre;
    OnlyAllowed(json, m, flags);
    FlagAt(json, m, flags, 3);
    FlagAt(json, m, flags, 4);
    FlagAt(json, m, flags, 5);
    FlagAt(json, m, flags, 6);
    FlagAt(json, m, flags, 7);
    FlagAt(json, m, flags, 8);
    FlagAt(json, m, flags, 9);
    FlagAt(json, m, flags, 10);
    FlagAt(json, m, flags, 11);
    FlagAt(json, m, flags, 12);
    FlagAt(json, m, flags, 13);
    FlagAt(json, m, flags, 14);
    FlagAt(json, m, flags, 15);
    FlagAt(json, m, flags, 16);
    FlagAt(json, m, flags, 17);
    FlagAt(json, m, flags, 18);
    FlagAt(json, m, flags, 19);
  }

  // ---- what version 2 accepts ----

  lemma AcceptedFlags(json: Json, m: Manifest, argv: seq<string>, name: string)
    requires ValidateV2(json, m, argv) == Ok(()) && Flag(name, On) in Groups(argv)
    ensures Has(Parsed(argv).value.0, name, On)
  {
    hide CheckV2;
    ParsedMeaning(Groups(argv));
  }

  /** A manifest value that looks like a flag makes every argument list unacceptable. */
  lemma FlagLikeValueRefused(json: Json, m: Manifest, argv: seq<string>)
    requires Faithful(json) && !PlainValues(m)
    ensures ValidateV2(json, m, argv) != Ok(())
  {
    hide ValidateV2, Parsed, Groups, TemplatePath, IsFlag, Faithful, Slot, IsName, CacheFlag;
    if ValidateV2(json, m, argv) == Ok(()) {
      var k :=
        if IsFlag(TemplatePath(m)) then 7
        else if IsFlag(m.blockSize) then 14
        else if IsFlag(m.cacheDtype) then 15
        else 16;
      AcceptedValues(json, m, argv);
      MisreadAt(json, m, k);
      AcceptedFlags(json, m, argv, ExpectedSpelling(json, m)[k].name);
      assert false;
    }
  }

  lemma MisreadAt(json: Json, m: Manifest, k: nat)
    requires Faithful(json) && (k == 7 || k == 14 || k == 15 || k == 16)
    requires k > 7 ==> !IsFlag(TemplatePath(m))
    requires k > 14 ==> !IsFlag(m.blockSize)
    requires k > 15 ==> !IsFlag(m.cacheDtype)
    requires IsFlag(if k == 7 then TemplatePath(m)
                    else if k == 14 then m.blockSize
                    else if k == 15 then m.cacheDtype
                    else m.hashAlgorithm)
    ensures Flag(ExpectedSpelling(json, m)[k].name, On) in Groups(ExpectedArgv(json, m))
  {
    hide Slot, TemplatePath, IsName, IsFlag, Readable, Groups, Faithful;
    PrefixReadable(json, m, k);
    NamesAt(json, m, k);
    MisreadValue(ExpectedSpelling(json, m), k);
  }

  lemma AcceptedValues(json: Json, m: Manifest, argv: seq<string>)
    requires ValidateV2(json, m, argv) == Ok(())
    ensures argv == ExpectedArgv(json, m)
    ensures var flags := Parsed(argv).value.0;
            && Has(flags, "--chat-template", Given(TemplatePath(m)))
            && Has(flags, "--block-size", Given(m.blockSize))
            && Has(flags, "--kv-cache-dtype", Given(m.cacheDtype))
            && Has(flags, "--prefix-caching-hash-algo", Given(m.hashAlgorithm))
    ensures Coherent(m)
  {
    hide TemplatePath, CacheFlag, ExpectedSpelling, Groups, Parsed;
  }

  // ---- what version 2 says of a list it refuses ----

  /** What is wrong with a JSON flag that should stand for `expected`, if anything. */
  function ObjectFault(json: Json, value: FlagValue, expected: Object, mismatch: string): Option<string>
  {
    match value
    case On => Some("startup_argv_json_flag_invalid")
    case Given(text) =>
      match json.load(text)
      case Err(error) => Some(error)
      case Ok(None) => Some("startup_argv_json_flag_noncanonical")
      case Ok(Some(o)) =>
        if json.dump(o) != text then Some("startup_argv_json_flag_noncanonical")
        else if !json.equal(o, expected) then Some(mismatch)
        else None
  }

  /** The checks behind the flat ones, on the values of the two JSON flags and the template. */
  function ObjectVerdict(json: Json, m: Manifest, overrides: FlagValue, pooler: FlagValue, template: FlagValue,
                         argv: seq<string>): Result<()>
  {
    var first := ObjectFault(json, overrides, HfOverrides(m.overrides), "startup_argv_hf_overrides_mismatch");
    var second := ObjectFault(json, pooler, Pooler(m.config), "startup_argv_pooler_config_mismatch");
    var path := StripSlashes(m.snapshotRoot) + "/" + m.templateCatalogPath;
    if first.Some? then Err(first.value)
    else if m.method_ != "from_2_way_softmax" || m.numLabels != 1
            || m.overrides.classifierFromToken != ["no", "yes"] then
      Err("startup_argv_hf_overrides_mismatch")
    else if second.Some? then Err(second.value)
    else if m.affineCalibration || m.config.logitMean.Some? || m.config.logitSigma.Some? || m.secondaryActivation then
      Err("startup_argv_pooler_config_mismatch")
    else if m.templateRuntimePath != path || template != Given(path) then Err("startup_argv_chat_template_mismatch")
    else if argv != ExpectedArgv(json, m) then Err("startup_argv_order_mismatch")
    else Ok(())
  }

  ghost predicate Mentions(groups: seq<Group>, name: string)
  {
    exists value :: Flag(name, value) in groups
  }

  /** The flags that a list must have, and the only ones that it may have. */
  predicate KnownName(cacheEnabled: bool, name: string)
  {
    || name == "--block-size" || name == "--chat-template" || name == "--disable-log-requests" || name == "--dtype"
    || name == "--enforce-eager" || name == "--hf-overrides" || name == "--kv-cache-dtype"
    || name == "--max-model-len" || name == "--max-num-seqs" || name == "--pooler-config"
    || name == "--prefix-caching-hash-algo" || name == "--revision" || name == "--runner" || name == "--seed"
    || name == "--served-model-name" || name == "--tensor-parallel-size"
    || name == (if cacheEnabled then "--enable-prefix-caching" else "--no-enable-prefix-caching")
  }

  ghost predicate FlatValues(m: Manifest, groups: seq<Group>)
  {
    && Flag("--revision", Given("22e683669bc0f0bd69640a1354a6d0aebcfeede5")) in groups
    && Flag("--served-model-name", Given("sparkclaw-reranker")) in groups
    && Flag("--runner", Given("pooling")) in groups
    && Flag("--dtype", Given("bfloat16")) in groups
    && Flag("--tensor-parallel-size", Given("1")) in groups
    && Flag("--max-model-len", Given("8192")) in groups
    && Flag("--max-num-seqs", Given("1")) in groups
    && Flag("--seed", Given("0")) in groups
    && Flag("--block-size", Given(m.blockSize)) in groups
    && Flag("--kv-cache-dtype", Given(m.cacheDtype)) in groups
    && Flag("--prefix-caching-hash-algo", Given(m.hashAlgorithm)) in groups
    && Flag("--enforce-eager", On) in groups
    && Flag("--disable-log-requests", On) in groups
  }

  /** The second verdict, read off the groups of the list: the first thing that is wrong. */
  lemma V2VerdictExactly(json: Json, m: Manifest, argv: seq<string>, overrides: FlagValue, pooler: FlagValue,
                         template: FlagValue)
    ensures var groups, r := Groups(argv), ValidateV2(json, m, argv);
            if !DistinctNames(groups) then r == Err("startup_argv_duplicate_flag")
            else if exists name :: KnownName(m.cacheEnabled, name) && !Mentions(groups, name) then
              r == Err("startup_argv_required_flag_missing")
            else if exists name :: Mentions(groups, name) && !KnownName(m.cacheEnabled, name) then
              r == Err("startup_argv_unknown_flag")
            else if Words(groups) != ["vllm", "serve", "Qwen/Qwen3-Reranker-4B"] then
              r == Err("startup_argv_model_mismatch")
            else if !FlatValues(m, groups) then r == Err("startup_argv_resolved_mismatch")
            else if Flag(if m.cacheEnabled then "--enable-prefix-caching" else "--no-enable-prefix-caching", On)
                    !in groups then r == Err("startup_argv_cache_mismatch")
            else if && Flag("--hf-overrides", overrides) in groups && Flag("--pooler-config", pooler) in groups
                    && Flag("--chat-template", template) in groups
            then r == ObjectVerdict(json, m, overrides, pooler, template, argv)
            else true
  {
    hide Groups, Gather, CheckV2, DistinctNames, FlagsAre, Words, KnownName, Mentions, FlatValues, ObjectVerdict;
    hide ExpectedArgv;
    var groups := Groups(argv);
    ParsedMeaning(groups);
    if DistinctNames(groups) {
      var flags, words := Parsed(argv).value.0, Parsed(argv).value.1;
      V2Names(m, flags, groups);
      V2Flat(m, flags, groups);
      V2Checks(json, m, flags, words, overrides, pooler, template, argv);
      InGroups(flags, groups, "--hf-overrides", overrides);
      InGroups(flags, groups, "--pooler-config", pooler);
      InGroups(flags, groups, "--chat-template", template);
    }
  }

  lemma V2Names(m: Manifest, flags: Flags, groups: seq<Group>)
    requires FlagsAre(flags, groups)
    ensures Allowed(m) <= flags.Keys <==> forall name :: KnownName(m.cacheEnabled, name) ==> Mentions(groups, name)
    ensures flags.Keys <= Allowed(m) <==> forall name :: Mentions(groups, name) ==> KnownName(m.cacheEnabled, name)
  {
    hide FlagsAre, Mentions, KnownName, Allowed;
    forall name
      ensures Mentions(groups, name) <==> name in flags
      ensures KnownName(m.cacheEnabled, name) <==> name in Allowed(m)
    {
      Mentioned(flags, groups, name);
      KnownAllowed(m, name);
    }
  }

  lemma KnownAllowed(m: Manifest, name: string)
    ensures KnownName(m.cacheEnabled, name) <==> name in Allowed(m)
  {
  }

  lemma Mentioned(flags: Flags, groups: seq<Group>, name: string)
    requires FlagsAre(flags, groups)
    ensures Mentions(groups, name) <==> name in flags
  {
    if name in flags {
      assert Flag(name, flags[name]) in groups;
    }
  }

  lemma V2Flat(m: Manifest, flags: Flags, groups: seq<Group>)
    requires FlagsAre(flags, groups)
    ensures FlatValues(m, groups)
            <==> RequiredValues(m, flags)
                 && Has(flags, "--enforce-eager", On) && Has(flags, "--disable-log-requests", On)
    ensures Flag(if m.cacheEnabled then "--enable-prefix-caching" else "--no-enable-prefix-caching", On) in groups
            <==> Has(flags, CacheFlag(m), On)
  {
    hide FlagsAre, Has;
    InGroups(flags, groups, "--revision", Given(MODEL_REVISION));
    InGroups(flags, groups, "--served-model-name", Given(SERVED_NAME));
    InGroups(flags, groups, "--runner", Given("pooling"));
    InGroups(flags, groups, "--dtype", Given("bfloat16"));
    InGroups(flags, groups, "--tensor-parallel-size", Given("1"));
    InGroups(flags, groups, "--max-model-len", Given("8192"));
    InGroups(flags, groups, "--max-num-seqs", Given("1"));
    InGroups(flags, groups, "--seed", Given("0"));
    InGroups(flags, groups, "--block-size", Given(m.blockSize));
    InGroups(flags, groups, "--kv-cache-dtype", Given(m.cacheDtype));
    InGroups(flags, groups, "--prefix-caching-hash-algo", Given(m.hashAlgorithm));
    InGroups(flags, groups, "--enforce-eager", On);
    InGroups(flags, groups, "--disable-log-requests", On);
    InGroups(flags, groups, CacheFlag(m), On);
  }

  lemma V2Checks(json: Json, m: Manifest, flags: Flags, words: seq<string>, overrides: FlagValue, pooler: FlagValue,
                 template: FlagValue, argv: seq<string>)
    requires Parsed(argv) == Ok((flags, words))
    ensures var r := ValidateV2(json, m, argv);
            if !(Allowed(m) <= flags.Keys) then r == Err("startup_argv_required_flag_missing")
            else if !(flags.Keys <= Allowed(m)) then r == Err("startup_argv_unknown_flag")
            else if words != ["vllm", "serve", "Qwen/Qwen3-Reranker-4B"] then r == Err("startup_argv_model_mismatch")
            else if !(RequiredValues(m, flags) && Has(flags, "--enforce-eager", On)
                      && Has(flags, "--disable-log-requests", On)) then r == Err("startup_argv_resolved_mismatch")
            else if !Has(flags, CacheFlag(m), On) then r == Err("startup_argv_cache_mismatch")
            else if && Has(flags, "--hf-overrides", overrides) && Has(flags, "--pooler-config", pooler)
                    && Has(flags, "--chat-template", template)
            then r == ObjectVerdict(json, m, overrides, pooler, template, argv)
            else true
  {
    hide Groups, Gather, RequiredValues, CacheFlag, ExpectedArgv, StripSlashes;
  }

  /** A manifest is coherent when its classifier, score and template fields are these. */
  lemma CoherentExactly(m: Manifest)
    ensures Coherent(m) <==>
              && m.method_ == "from_2_way_softmax" && m.numLabels == 1
              && m.overrides.classifierFromToken == ["no", "yes"]
              && !m.affineCalibration && !m.secondaryActivation
              && m.config.logitMean == None && m.config.logitSigma == None
              && m.templateRuntimePath == StripSlashes(m.snapshotRoot) + "/" + m.templateCatalogPath
  {
  }

  /** Version 2 accepts an argument list exactly when the manifest is coherent, none of its
      values looks like a flag, and the list is the canonical one. */
  lemma V2AcceptsExactly(json: Json, m: Manifest, argv: seq<string>)
    requires Faithful(json)
    ensures ValidateV2(json, m, argv) == Ok(())
            <==> Coherent(m) && PlainValues(m) && argv == ExpectedArgv(json, m)
  {
    hide *;
    if ValidateV2(json, m, argv) == Ok(()) {
      AcceptedValues(json, m, argv);
      if !PlainValues(m) {
        FlagLikeValueRefused(json, m, argv);
      }
    }
    if Coherent(m) && PlainValues(m) {
      ExpectedPasses(json, m);
    }
  }
}
