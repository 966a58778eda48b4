/** The snapshot catalog of scripts/e2_reranker_evidence.py: enumerating a directory tree,
    building the catalog, and the checks the verifier makes on it. A directory is its
    entries in the order in which the enumeration sorts them, by name. */
module ArtifactCatalog {
  import opened Outcomes
  import opened StableSort

  datatype Node = File | Dir(entries: seq<Entry>) | Symlink | Special

  datatype Entry = Entry(name: string, node: Node)

  // ---- text ----

  /** Order by code point, which is the order of UTF-8 bytes. */
  function Compare(a: string, b: string): int
  {
    if a == b then 0
    else if a == "" then -1
    else if b == "" then 1
    else if a[0] != b[0] then (if a[0] < b[0] then -1 else 1)
    else Compare(a[1..], b[1..])
  }

  lemma {:induction false} CompareConnects(a: string, b: string)
    ensures Compare(a, b) <= 0 || Compare(b, a) <= 0
    ensures Compare(a, b) <= 0 && Compare(b, a) <= 0 ==> a == b
  {
    if a != "" && b != "" && a[0] == b[0] && a != b {
      CompareConnects(a[1..], b[1..]);
      assert a == [a[0]] + a[1..] && b == [b[0]] + b[1..];
    }
  }

  lemma {:induction false} CompareTransitive(a: string, b: string, c: string)
    requires Compare(a, b) <= 0 && Compare(b, c) <= 0
    ensures Compare(a, c) <= 0
  {
    if a != "" && b != "" && c != "" && a[0] == b[0] == c[0] && a != b && b != c {
      CompareTransitive(a[1..], b[1..], c[1..]);
    }
  }

  /** A proper prefix comes first, and otherwise the smaller of the first two characters that
      differ. */
  lemma {:induction false} CompareExactly(a: string, b: string)
    ensures Compare(a, b) < 0 <==> ComesFirst(a, b)
    ensures Compare(a, b) == 0 <==> a == b
    ensures Compare(a, b) > 0 <==> ComesFirst(b, a)
  {
    if a != "" && b != "" && a[0] == b[0] && a != b {
      CompareExactly(a[1..], b[1..]);
      FirstAfter(a, b);
      FirstAfter(b, a);
      assert a == [a[0]] + a[1..] && b == [b[0]] + b[1..];
    } else if a != b {
      assert a[..0] == b[..0] == "";
      if a == "" || (b != "" && a[0] < b[0]) {
        assert FirstAt(a, b, 0);
      } else {
        assert FirstAt(b, a, 0);
      }
    }
  }

  /** They agree before k, and there a ends or has the smaller character. */
  predicate FirstAt(a: string, b: string, k: nat)
  {
    && k <= |a| && k < |b| && a[..k] == b[..k]
    && (k == |a| || a[k] as int < b[k] as int)
  }

  ghost predicate ComesFirst(a: string, b: string)
  {
    exists k: nat :: FirstAt(a, b, k)
  }

  lemma FirstAfter(a: string, b: string)
    requires a != "" && b != "" && a[0] == b[0]
    ensures ComesFirst(a, b) <==> ComesFirst(a[1..], b[1..])
  {
    if k: nat :| FirstAt(a, b, k) {
      assert k > 0 && a[1..][..k - 1] == a[..k][1..] && b[1..][..k - 1] == b[..k][1..];
      assert FirstAt(a[1..], b[1..], k - 1);
    }
    if k: nat :| FirstAt(a[1..], b[1..], k) {
      assert a[..k + 1] == [a[0]] + a[1..][..k] && b[..k + 1] == [b[0]] + b[1..][..k];
      assert FirstAt(a, b, k + 1);
    }
  }

  lemma CompareTotal(domain: set<string>)
    ensures Total(Compare, domain)
  {
    forall a, b | a in domain && b in domain
      ensures Compare(a, b) <= 0 || Compare(b, a) <= 0
      ensures Compare(a, b) <= 0 && Compare(b, a) <= 0 ==> a == b
    {
      CompareConnects(a, b);
    }
    forall a, b, c | a in domain && b in domain && c in domain && Compare(a, b) <= 0 && Compare(b, c) <= 0
      ensures Compare(a, c) <= 0
    {
      CompareTransitive(a, b, c);
    }
  }

  predicate IsAscii(s: string)
  {
    forall i :: 0 <= i < |s| ==> s[i] < '\U{0080}'
  }

  ghost predicate CodesBelow128(s: string)
  {
    forall i :: 0 <= i < |s| ==> s[i] as int < 128
  }

  lemma AsciiCodes(s: string)
    ensures IsAscii(s) <==> CodesBelow128(s)
  {
  }

  /** "/".join(parts). */
  function Join(parts: seq<string>): string
  {
    if parts == [] then "" else if |parts| == 1 then parts[0] else parts[0] + "/" + Join(parts[1..])
  }

  predicate IsName(name: string)
  {
    name != "" && forall i :: 0 <= i < |name| ==> name[i] != '/'
  }

  // ---- trees ----

  /** What a file system guarantees: proper names, no two alike, here in order. */
  predicate WellFormed(entries: seq<Entry>)
  {
    && (forall i :: 0 <= i < |entries| ==> IsName(entries[i].name))
    && (forall i, j :: 0 <= i < j < |entries| ==> Compare(entries[i].name, entries[j].name) < 0)
    && (forall i :: 0 <= i < |entries| && entries[i].node.Dir? ==> WellFormed(entries[i].node.entries))
  }

  /** There is a regular file at the end of these path parts. */
  ghost predicate FileAt(entries: seq<Entry>, parts: seq<string>)
    decreases parts, 1
  {
    exists i :: 0 <= i < |entries| && Leads(entries[i], parts)
  }

  ghost predicate Leads(entry: Entry, parts: seq<string>)
    decreases parts, 0
  {
    && parts != [] && entry.name == parts[0]
    && if |parts| == 1 then entry.node.File? else entry.node.Dir? && FileAt(entry.node.entries, parts[1..])
  }

  /** Every name is ASCII and every entry a directory or a regular file. */
  predicate Plain(entries: seq<Entry>)
  {
    forall i :: 0 <= i < |entries| ==>
      && IsAscii(entries[i].name)
      && (entries[i].node.File? || (entries[i].node.Dir? && Plain(entries[i].node.entries)))
  }

  // ---- enumeration ----

  /** The recursive visit: the paths of all files, or the first thing that is not allowed. */
  function Visited(entries: seq<Entry>, prefix: seq<string>): Result<seq<seq<string>>>
    decreases entries
  {
    if entries == [] then Ok([])
    else
      var entry, parts := entries[0], prefix + [entries[0].name];
      if !IsAscii(entry.name) then Err("catalog_path_non_ascii")
      else
        var here := match entry.node
          case Symlink => Err("catalog_symlink_forbidden")
          case Special => Err("catalog_non_regular_file")
          case File => Ok([parts])
          case Dir(inner) => Visited(inner, parts);
        if here.Err? then here
        else
          Behind(here.value, Visited(entries[1..], prefix))
  }

  function Behind(found: seq<seq<string>>, rest: Result<seq<seq<string>>>): Result<seq<seq<string>>>
  {
    if rest.Err? then rest else Ok(found + rest.value)
  }

  lemma BehindTwice(a: seq<seq<string>>, b: seq<seq<string>>, rest: Result<seq<seq<string>>>)
    ensures Behind(a, Behind(b, rest)) == Behind(a + b, rest)
    ensures Behind([], rest) == rest
  {
    if rest.Ok? {
      assert a + (b + rest.value) == a + b + rest.value;
      assert [] + rest.value == rest.value;
    }
  }

  method Visit(entries: seq<Entry>, prefix: seq<string>) returns (r: Result<seq<seq<string>>>)
    ensures r == Visited(entries, prefix)
    decreases entries
  {
    var found: seq<seq<string>> := [];
    assert entries[0..] == entries;
    BehindTwice([], [], Visited(entries, prefix));
    for i := 0 to |entries|
      invariant Visited(entries, prefix) == Behind(found, Visited(entries[i..], prefix))
    {
      var entry := entries[i];
      var parts := prefix + [entry.name];
      assert entries[i..][1..] == entries[i + 1..];
      if !IsAscii(entry.name) {
        return Err("catalog_path_non_ascii");
      }
      match entry.node {
        case Symlink => return Err("catalog_symlink_forbidden");
        case Special => return Err("catalog_non_regular_file");
        case File =>
          BehindTwice(found, [parts], Visited(entries[i + 1..], prefix));
          found := found + [parts];
        case Dir(inner) =>
          var visited := Visit(inner, parts);
          if visited.Err? {
            return visited;
          }
          BehindTwice(found, visited.value, Visited(entries[i + 1..], prefix));
          found := found + visited.value;
      }
    }
    assert entries[|entries|..] == [] && found + [] == found;
    return Ok(found);
  }

  function Joined(found: seq<seq<string>>): (r: seq<string>)
    ensures |r| == |found|
  {
    seq(|found|, i requires 0 <= i < |found| => Join(found[i]))
  }

  /** The sorted relative paths under a snapshot root. */
  function Enumerated(root: Node): Result<seq<string>>
  {
    if !root.Dir? then Err("snapshot_root_invalid")
    else
      var found := Visited(root.entries, []);
      if found.Err? then Err(found.error) else Ok(Sort(Compare, Joined(found.value)))
  }

  // ---- what the enumeration finds ----

  lemma {:induction false} FilesSplit(entries: seq<Entry>, parts: seq<string>)
    requires entries != []
    ensures FileAt(entries, parts) <==> FileAt([entries[0]], parts) || FileAt(entries[1..], parts)
  {
    var one, rest := [entries[0]], entries[1..];
    if FileAt(entries, parts) {
      var i :| 0 <= i < |entries| && Leads(entries[i], parts);
      if i == 0 {
        assert Leads(one[0], parts);
      } else {
        assert Leads(rest[i - 1], parts);
      }
    }
    if FileAt(one, parts) {
      assert Leads(entries[0], parts);
    }
    if FileAt(rest, parts) {
      var i :| 0 <= i < |rest| && Leads(rest[i], parts);
      assert Leads(entries[i + 1], parts);
    }
  }

  /** The visit succeeds exactly on trees of ASCII names, directories and regular files. */
  lemma {:induction false} VisitedWhenPlain(entries: seq<Entry>, prefix: seq<string>)
    ensures Visited(entries, prefix).Ok? <==> Plain(entries)
    decreases entries
  {
    if entries != [] {
      if entries[0].node.Dir? {
        VisitedWhenPlain(entries[0].node.entries, prefix + [entries[0].name]);
      }
      VisitedWhenPlain(entries[1..], prefix);
      assert Plain(entries) <==> Plain([entries[0]]) && Plain(entries[1..]) by {
        PlainSplit(entries);
      }
    }
  }

  lemma PlainSplit(entries: seq<Entry>)
    requires entries != []
    ensures Plain(entries) <==> Plain([entries[0]]) && Plain(entries[1..])
  {
    if Plain([entries[0]]) && Plain(entries[1..]) {
      forall i | 0 <= i < |entries|
        ensures IsAscii(entries[i].name)
                && (entries[i].node.File? || (entries[i].node.Dir? && Plain(entries[i].node.entries)))
      {
        assert i > 0 ==> entries[i] == entries[1..][i - 1];
        assert i == 0 ==> entries[i] == [entries[0]][0];
      }
    }
    if Plain(entries) {
      assert forall i :: 0 <= i < |entries[1..]| ==> entries[1..][i] == entries[i + 1];
    }
  }

  /** Somewhere in the tree there is such an entry. */
  ghost predicate Somewhere(entries: seq<Entry>, bad: Entry -> bool)
  {
    exists i :: 0 <= i < |entries|
      && (bad(entries[i]) || (entries[i].node.Dir? && Somewhere(entries[i].node.entries, bad)))
  }

  /** What a refusal means: there is a link, a special file or a name that is not ASCII. */
  lemma {:induction false} RefusalMeaning(entries: seq<Entry>, prefix: seq<string>)
    requires Visited(entries, prefix).Err?
    ensures Refuses(entries, Visited(entries, prefix).error)
    decreases entries
  {
    hide Refuses;
    var entry, parts := entries[0], prefix + [entries[0].name];
    if !IsAscii(entry.name) || entry.node.Symlink? || entry.node.Special? {
      RefusedHere(entries);
    } else if entry.node.Dir? && Visited(entry.node.entries, parts).Err? {
      RefusalMeaning(entry.node.entries, parts);
      RefusedInside(entries, Visited(entry.node.entries, parts).error);
    } else {
      RefusalMeaning(entries[1..], prefix);
      RefusedLater(entries, Visited(entries[1..], prefix).error);
    }
  }

  ghost predicate Refuses(entries: seq<Entry>, error: string)
  {
    || (error == "catalog_symlink_forbidden" && Somewhere(entries, (e: Entry) => e.node.Symlink?))
    || (error == "catalog_non_regular_file" && Somewhere(entries, (e: Entry) => e.node.Special?))
    || (error == "catalog_path_non_ascii" && Somewhere(entries, (e: Entry) => !IsAscii(e.name)))
  }

  lemma RefusedHere(entries: seq<Entry>)
    requires entries != []
    ensures entries[0].node.Symlink? ==> Refuses(entries, "catalog_symlink_forbidden")
    ensures entries[0].node.Special? ==> Refuses(entries, "catalog_non_regular_file")
    ensures !IsAscii(entries[0].name) ==> Refuses(entries, "catalog_path_non_ascii")
  {
  }

  lemma RefusedInside(entries: seq<Entry>, error: string)
    requires entries != [] && entries[0].node.Dir? && Refuses(entries[0].node.entries, error)
    ensures Refuses(entries, error)
  {
    var inner := entries[0].node.entries;
    Inside(entries, (e: Entry) => e.node.Symlink?);
    Inside(entries, (e: Entry) => e.node.Special?);
    Inside(entries, (e: Entry) => !IsAscii(e.name));
  }

  lemma Inside(entries: seq<Entry>, bad: Entry -> bool)
    requires entries != [] && entries[0].node.Dir?
    ensures Somewhere(entries[0].node.entries, bad) ==> Somewhere(entries, bad)
  {
  }

  lemma RefusedLater(entries: seq<Entry>, error: string)
    requires entries != [] && Refuses(entries[1..], error)
    ensures Refuses(entries, error)
  {
    Later(entries, (e: Entry) => e.node.Symlink?);
    Later(entries, (e: Entry) => e.node.Special?);
    Later(entries, (e: Entry) => !IsAscii(e.name));
  }

  lemma Later(entries: seq<Entry>, bad: Entry -> bool)
    requires entries != []
    ensures Somewhere(entries[1..], bad) ==> Somewhere(entries, bad)
  {
    var rest := entries[1..];
    if Somewhere(rest, bad) {
      var i :| 0 <= i < |rest| && (bad(rest[i]) || (rest[i].node.Dir? && Somewhere(rest[i].node.entries, bad)));
      assert rest[i] == entries[i + 1];
    }
  }

  /** The found paths are the files below these entries, each once. */
  ghost predicate Lists(entries: seq<Entry>, prefix: seq<string>, found: seq<seq<string>>)
  {
    && (forall p :: p in found ==> prefix <= p && FileAt(entries, p[|prefix|..]))
    && (forall parts :: FileAt(entries, parts) ==> prefix + parts in found)
    && NoDuplicates(found)
  }

  lemma {:induction false} VisitedLists(entries: seq<Entry>, prefix: seq<string>)
    requires WellFormed(entries) && Visited(entries, prefix).Ok?
    ensures Lists(entries, prefix, Visited(entries, prefix).value)
    decreases entries
  {
    hide Lists;
    if entries == [] {
      NothingListed(prefix);
    } else {
      var entry, parts := entries[0], prefix + [entries[0].name];
      WellFormedRest(entries);
      VisitedLists(entries[1..], prefix);
      if entry.node.Dir? {
        VisitedLists(entry.node.entries, parts);
        DirLists(entry, prefix, Visited(entry.node.entries, parts).value);
        ListsTogether(entries, prefix, Visited(entry.node.entries, parts).value, Visited(entries[1..], prefix).value);
      } else {
        FileLists(entry, prefix);
        ListsTogether(entries, prefix, [parts], Visited(entries[1..], prefix).value);
      }
    }
  }

  lemma NothingListed(prefix: seq<string>)
    ensures Lists([], prefix, [])
  {
  }

  lemma WellFormedRest(entries: seq<Entry>)
    requires entries != [] && WellFormed(entries)
    ensures WellFormed(entries[1..])
    ensures forall i :: 0 <= i < |entries[1..]| ==> entries[1..][i].name != entries[0].name
    ensures entries[0].node.Dir? ==> WellFormed(entries[0].node.entries)
  {
    var rest := entries[1..];
    forall i | 0 <= i < |rest|
      ensures IsName(rest[i].name) && rest[i].name != entries[0].name
              && (rest[i].node.Dir? ==> WellFormed(rest[i].node.entries))
    {
      assert rest[i] == entries[i + 1] && Compare(entries[0].name, entries[i + 1].name) < 0;
    }
    forall i, j | 0 <= i < j < |rest|
      ensures Compare(rest[i].name, rest[j].name) < 0
    {
      assert Compare(entries[i + 1].name, entries[j + 1].name) < 0;
    }
  }

  lemma FirstPart(entries: seq<Entry>, parts: seq<string>)
    requires FileAt(entries, parts)
    ensures parts != [] && exists i :: 0 <= i < |entries| && entries[i].name == parts[0] && Leads(entries[i], parts)
  {
  }

  lemma FileLists(entry: Entry, prefix: seq<string>)
    requires entry.node.File?
    ensures Lists([entry], prefix, [prefix + [entry.name]])
  {
    var p := prefix + [entry.name];
    assert p[|prefix|..] == [entry.name];
    assert Leads([entry][0], [entry.name]);
    forall parts | FileAt([entry], parts)
      ensures prefix + parts in [p]
    {
      FirstPart([entry], parts);
      assert parts == [entry.name];
    }
  }

  lemma DirLists(entry: Entry, prefix: seq<string>, found: seq<seq<string>>)
    requires entry.node.Dir? && Lists(entry.node.entries, prefix + [entry.name], found)
    ensures Lists([entry], prefix, found)
  {
    var inner := prefix + [entry.name];
    forall p | p in found
      ensures prefix <= p && FileAt([entry], p[|prefix|..])
    {
      var parts := p[|prefix|..];
      assert p[|inner|..] == parts[1..] && parts[0] == entry.name;
      FirstPart(entry.node.entries, parts[1..]);
      assert Leads([entry][0], parts);
    }
    forall parts | FileAt([entry], parts)
      ensures prefix + parts in found
    {
      FirstPart([entry], parts);
      assert inner + parts[1..] == prefix + parts;
    }
  }

  lemma ListsTogether(entries: seq<Entry>, prefix: seq<string>, first: seq<seq<string>>, rest: seq<seq<string>>)
    requires entries != [] && forall i :: 0 <= i < |entries[1..]| ==> entries[1..][i].name != entries[0].name
    requires Lists([entries[0]], prefix, first) && Lists(entries[1..], prefix, rest)
    ensures Lists(entries, prefix, first + rest)
  {
    forall p | p in first + rest
      ensures prefix <= p && FileAt(entries, p[|prefix|..])
    {
      FilesSplit(entries, p[|prefix|..]);
    }
    forall parts | FileAt(entries, parts)
      ensures prefix + parts in first + rest
    {
      FilesSplit(entries, parts);
    }
    forall i, j | 0 <= i < |first| && 0 <= j < |rest|
      ensures first[i] != rest[j]
    {
      assert first[i] in first && rest[j] in rest;
      FirstPart([entries[0]], first[i][|prefix|..]);
      FirstPart(entries[1..], rest[j][|prefix|..]);
    }
  }

  // ---- paths as text ----

  predicate AllNames(parts: seq<string>)
  {
    forall i :: 0 <= i < |parts| ==> IsName(parts[i])
  }

  lemma {:induction false} FilePathsNamed(entries: seq<Entry>, parts: seq<string>)
    requires WellFormed(entries) && FileAt(entries, parts)
    ensures AllNames(parts)
    decreases parts
  {
    var i :| 0 <= i < |entries| && Leads(entries[i], parts);
    if |parts| > 1 {
      FilePathsNamed(entries[i].node.entries, parts[1..]);
      assert forall k :: 0 < k < |parts| ==> parts[k] == parts[1..][k - 1];
    }
  }

  lemma {:induction false} FilePathsAscii(entries: seq<Entry>, parts: seq<string>)
    requires Plain(entries) && FileAt(entries, parts)
    ensures IsAscii(Join(parts))
    decreases parts
  {
    var i :| 0 <= i < |entries| && Leads(entries[i], parts);
    if |parts| > 1 {
      FilePathsAscii(entries[i].node.entries, parts[1..]);
    }
  }

  /** Where the first slash is, the first name ends. */
  lemma JoinFirst(parts: seq<string>, k: nat)
    requires parts != [] && AllNames(parts)
    requires k <= |Join(parts)| && (forall i :: 0 <= i < k ==> Join(parts)[i] != '/')
        && (k < |Join(parts)| ==> Join(parts)[k] == '/')
    ensures k == |parts[0]| && parts[0] == Join(parts)[..k]
    ensures |parts| > 1 <==> k < |Join(parts)|
  {
    if |parts| > 1 {
      var whole := Join(parts);
      assert whole == parts[0] + "/" + Join(parts[1..]);
      assert whole[|parts[0]|] == '/';
      assert forall i :: 0 <= i < |parts[0]| ==> whole[i] == parts[0][i];
    }
  }

  lemma {:induction false} JoinInjective(a: seq<string>, b: seq<string>)
    requires a != [] && b != [] && AllNames(a) && AllNames(b) && Join(a) == Join(b)
    ensures a == b
  {
    var k := FirstSlash(Join(a));
    JoinFirst(a, k);
    JoinFirst(b, k);
    if |a| > 1 {
      assert Join(a)[k + 1..] == Join(a[1..]) && Join(b)[k + 1..] == Join(b[1..]);
      assert AllNames(a[1..]) && AllNames(b[1..]);
      JoinInjective(a[1..], b[1..]);
      assert a == [a[0]] + a[1..] && b == [b[0]] + b[1..];
    }
  }

  lemma {:induction false} FirstSlash(s: string) returns (k: nat)
    ensures k <= |s| && (forall i :: 0 <= i < k ==> s[i] != '/') && (k < |s| ==> s[k] == '/')
  {
    k := 0;
    while k < |s| && s[k] != '/'
      invariant k <= |s| && forall i :: 0 <= i < k ==> s[i] != '/'
    {
      k := k + 1;
    }
  }

  // ---- the inventory ----

  ghost predicate NamesFile(entries: seq<Entry>, path: string)
  {
    exists parts :: FileAt(entries, parts) && Join(parts) == path
  }

  /** Strictly ascending, so sorted and without repeats. */
  ghost predicate Ascending(paths: seq<string>)
  {
    forall i, j :: 0 <= i < j < |paths| ==> Compare(paths[i], paths[j]) < 0
  }

  /** An inventory lists exactly the regular files of the tree, as strictly ascending unique
      ASCII paths; it exists exactly when the tree is plain. */
  lemma EnumeratedExactly(root: Node)
    requires root.Dir? ==> WellFormed(root.entries)
    ensures !root.Dir? ==> Enumerated(root) == Err("snapshot_root_invalid")
    ensures Enumerated(root).Ok? <==> root.Dir? && Plain(root.entries)
    ensures root.Dir? && Enumerated(root).Err? ==> Enumerated(root) == Err(Visited(root.entries, []).error)
    ensures Enumerated(root).Ok? ==>
              && Ascending(Enumerated(root).value)
              && (forall p :: p in Enumerated(root).value ==> IsAscii(p) && CodesBelow128(p))
              && (forall parts :: FileAt(root.entries, parts) ==> Join(parts) in Enumerated(root).value)
              && (forall p :: p in Enumerated(root).value ==> NamesFile(root.entries, p))
  {
    hide Compare, Sort, Visited, Plain, WellFormed, Lists, FileAt, Join, Ascending, IsAscii;
    if root.Dir? {
      VisitedWhenPlain(root.entries, []);
    }
    forall p: string
      ensures IsAscii(p) <==> CodesBelow128(p)
    {
      AsciiCodes(p);
    }
    hide CodesBelow128;
    if Enumerated(root).Ok? {
      VisitedLists(root.entries, []);
      var paths := Joined(Visited(root.entries, []).value);
      JoinedDistinct(root.entries, Visited(root.entries, []).value);
      SortedAscending(paths);
      JoinedPaths(root.entries, Visited(root.entries, []).value);
      SortPermutes(Compare, paths);
      SameElements(paths, Sort(Compare, paths));
      forall p
        ensures p in Sort(Compare, paths) <==> p in paths
      {
        assert p in Elements(paths) <==> p in Elements(Sort(Compare, paths));
      }
    }
  }

  lemma JoinedPaths(entries: seq<Entry>, found: seq<seq<string>>)
    requires Plain(entries) && Lists(entries, [], found)
    ensures forall p :: p in Joined(found) ==> IsAscii(p)
    ensures forall parts :: FileAt(entries, parts) ==> Join(parts) in Joined(found)
    ensures forall p :: p in Joined(found) ==> NamesFile(entries, p)
  {
    hide Plain, FileAt, Join, IsAscii;
    forall p | p in Joined(found)
      ensures IsAscii(p) && NamesFile(entries, p)
    {
      var i :| 0 <= i < |found| && Joined(found)[i] == p;
      assert found[i] in found && found[i][0..] == found[i];
      FilePathsAscii(entries, found[i]);
    }
    forall parts | FileAt(entries, parts)
      ensures Join(parts) in Joined(found)
    {
      assert [] + parts == parts && parts in found;
      var i :| 0 <= i < |found| && found[i] == parts;
      assert Joined(found)[i] == Join(parts);
    }
  }

  lemma JoinedDistinct(entries: seq<Entry>, found: seq<seq<string>>)
    requires WellFormed(entries) && Lists(entries, [], found)
    ensures NoDuplicates(Joined(found))
  {
    forall i, j | 0 <= i < j < |found|
      ensures Join(found[i]) != Join(found[j])
    {
      assert found[i] in found && found[j] in found && found[i][0..] == found[i] && found[j][0..] == found[j];
      FilePathsNamed(entries, found[i]);
      FilePathsNamed(entries, found[j]);
      if Join(found[i]) == Join(found[j]) {
        JoinInjective(found[i], found[j]);
      }
    }
  }

  lemma SortedAscending(paths: seq<string>)
    requires NoDuplicates(paths)
    ensures Ascending(Sort(Compare, paths))
  {
    hide Compare, Sort, Total, Consistent;
    var sorted := Sort(Compare, paths);
    CompareTotal(Elements(paths));
    assert Consistent(Compare, Elements(paths)) by { TotalIsConsistent(Compare, Elements(paths)); }
    SortOrdered(Compare, paths, Elements(paths));
    SortPermutes(Compare, paths);
    NoDuplicatesPermutes(paths, sorted);
    forall i, j | 0 <= i < j < |sorted|
      ensures Compare(sorted[i], sorted[j]) < 0
    {
      DifferentNotZero(sorted[i], sorted[j]);
    }
  }

  lemma {:induction false} DifferentNotZero(a: string, b: string)
    requires a != b
    ensures Compare(a, b) != 0
  {
    if a != "" && b != "" && a[0] == b[0] {
      assert a == [a[0]] + a[1..] && b == [b[0]] + b[1..];
      DifferentNotZero(a[1..], b[1..]);
    }
  }

  // ---- the catalog and its checks ----

  datatype FileEntry = FileEntry(component: string, path: string, sha256: string, sizeBytes: nat)

  datatype Catalog = Catalog(format: string, closure: string, fileCount: int, totalSizeBytes: int,
                             filesSha256: string, files: seq<FileEntry>)

  function Paths(files: seq<FileEntry>): (r: seq<string>)
    ensures |r| == |files|
  {
    seq(|files|, i requires 0 <= i < |files| => files[i].path)
  }

  function Components(files: seq<FileEntry>): set<string>
  {
    set f | f in files :: f.component
  }

  function TotalSize(files: seq<FileEntry>): nat
  {
    if files == [] then 0 else TotalSize(files[..|files| - 1]) + files[|files| - 1].sizeBytes
  }

  /** The verifier's checks on a catalog. `digest` is the SHA-256 of the canonical bytes. */
  function CheckCatalog(c: Catalog, components: set<string>, digest: seq<FileEntry> -> string): Result<()>
  {
    var paths := Paths(c.files);
    if paths != Sort(Compare, paths) || |paths| != |Elements(paths)| then Err("catalog_path_order_invalid")
    else if Components(c.files) != components then Err("catalog_component_closure_missing")
    else if c.fileCount != |c.files| then Err("catalog_file_count_mismatch")
    else if c.totalSizeBytes != TotalSize(c.files) then Err("catalog_total_size_mismatch")
    else if c.filesSha256 != digest(c.files) then Err("catalog_files_sha256_mismatch")
    else Ok(())
  }

  lemma {:induction false} DistinctCount<T>(xs: seq<T>)
    requires NoDuplicates(xs)
    ensures |Elements(xs)| == |xs|
  {
    if xs != [] {
      var init, last := xs[..|xs| - 1], xs[|xs| - 1];
      DistinctCount(init);
      assert Elements(xs) == Elements(init) + {last};
      assert last !in Elements(init);
    }
  }

  lemma {:induction false} CountBound<T>(xs: seq<T>)
    ensures |Elements(xs)| <= |xs|
    ensures |Elements(xs)| == |xs| ==> NoDuplicates(xs)
  {
    if xs != [] {
      var init, last := xs[..|xs| - 1], xs[|xs| - 1];
      CountBound(init);
      assert Elements(xs) == Elements(init) + {last};
      if last in init {
        assert Elements(xs) == Elements(init);
      } else {
        assert forall i :: 0 <= i < |init| ==> init[i] in init;
      }
    }
  }

  /** What the verifier's checks say: the first thing that is wrong with a catalog, or Ok when
      the paths ascend strictly, the components are exactly the schema's, and count, total
      size and digest are those of the list. */
  lemma CheckExactly(c: Catalog, components: set<string>, digest: seq<FileEntry> -> string)
    ensures CheckCatalog(c, components, digest) ==
            if exists i, j :: 0 <= i < j < |c.files| && !ComesFirst(c.files[i].path, c.files[j].path) then
              Err("catalog_path_order_invalid")
            else if (exists f :: f in c.files && f.component !in components)
                    || (exists component :: component in components
                                            && forall f :: f in c.files ==> f.component != component) then
              Err("catalog_component_closure_missing")
            else if c.fileCount != |c.files| then Err("catalog_file_count_mismatch")
            else if c.totalSizeBytes != TotalSize(c.files) then Err("catalog_total_size_mismatch")
            else if c.filesSha256 != digest(c.files) then Err("catalog_files_sha256_mismatch")
            else Ok(())
  {
    hide Sort, Compare, ComesFirst, Ascending, Elements, Components, TotalSize, Paths;
    OrderCheck(c.files);
    ComponentCheck(c.files, components);
  }

  lemma OrderCheck(files: seq<FileEntry>)
    ensures (Paths(files) == Sort(Compare, Paths(files)) && |Paths(files)| == |Elements(Paths(files))|)
            <==> forall i, j :: 0 <= i < j < |files| ==> ComesFirst(files[i].path, files[j].path)
  {
    hide Sort, Compare, ComesFirst, Total, Consistent;
    var paths := Paths(files);
    forall a: string, b: string
      ensures Compare(a, b) < 0 <==> ComesFirst(a, b)
    {
      CompareExactly(a, b);
    }
    assert Ascending(paths) <==> forall i, j :: 0 <= i < j < |files| ==> ComesFirst(files[i].path, files[j].path) by {
      assert forall i :: 0 <= i < |files| ==> paths[i] == files[i].path;
    }
    if Ascending(paths) {
      AscendingPasses(paths);
    }
    if paths == Sort(Compare, paths) && |paths| == |Elements(paths)| {
      CountBound(paths);
      SortedAscending(paths);
    }
  }

  lemma ComponentCheck(files: seq<FileEntry>, components: set<string>)
    ensures Components(files) != components
            <==> (exists f :: f in files && f.component !in components)
                 || (exists component :: component in components
                                         && forall f :: f in files ==> f.component != component)
  {
    if Components(files) != components {
      if component :| component in Components(files) && component !in components {
        var f :| f in files && f.component == component;
      } else {
        assert exists component :: component in components && component !in Components(files);
        var component :| component in components && component !in Components(files);
      }
    }
  }

  /** The total is the sum of the sizes, however the list is cut. */
  lemma {:induction false} TotalSizeAdds(a: seq<FileEntry>, b: seq<FileEntry>, f: FileEntry)
    ensures TotalSize(a + b) == TotalSize(a) + TotalSize(b)
    ensures TotalSize([f]) == f.sizeBytes && TotalSize([]) == 0
  {
    if b == [] {
      assert a + b == a;
    } else {
      TotalSizeAdds(a, b[..|b| - 1], f);
      assert (a + b)[..|a + b| - 1] == a + b[..|b| - 1];
    }
    assert [f][..0] == [];
  }

  lemma AscendingPasses(paths: seq<string>)
    requires Ascending(paths)
    ensures paths == Sort(Compare, paths) && |paths| == |Elements(paths)|
  {
    hide Sort;
    forall i, j | 0 <= i < j < |paths|
      ensures paths[i] != paths[j] && Compare(paths[i], paths[j]) <= 0
    {
      assert Compare(paths[i], paths[j]) < 0;
    }
    DistinctCount(paths);
    CompareTotal(Elements(paths));
    TotalIsConsistent(Compare, Elements(paths));
    SortOrdered(Compare, paths, Elements(paths));
    SortPermutes(Compare, paths);
    OrderedUnique(Compare, paths, Sort(Compare, paths), Elements(paths));
  }

  /** The loop over the files, hashing each. */
  method HashFiles(paths: seq<string>, classifications: map<string, string>, components: set<string>,
                   hash: string -> Result<(string, nat)>)
    returns (r: Result<seq<FileEntry>>)
    requires forall p :: p in paths ==> p in classifications && classifications[p] in components
    ensures r.Ok? <==> forall p :: p in paths ==> hash(p).Ok?
    ensures r.Ok? ==> Records(r.value, paths, classifications, hash)
    ensures r.Err? ==> exists i :: 0 <= i < |paths| && hash(paths[i]) == Err(r.error)
                                   && forall p :: p in paths[..i] ==> hash(p).Ok?
  {
    var entries: seq<FileEntry> := [];
    for i := 0 to |paths|
      invariant Records(entries, paths[..i], classifications, hash)
      invariant forall p :: p in paths[..i] ==> hash(p).Ok?
    {
      assert paths[i] in paths && paths[..i + 1] == paths[..i] + [paths[i]];
      var component := classifications[paths[i]];
      var hashed := hash(paths[i]);
      if hashed.Err? {
        return Err(hashed.error);
      }
      entries := entries + [FileEntry(component, paths[i], hashed.value.0, hashed.value.1)];
    }
    assert paths[..|paths|] == paths;
    return Ok(entries);
  }

  /** Entry i describes path i. */
  ghost predicate Records(files: seq<FileEntry>, paths: seq<string>, classifications: map<string, string>,
                          hash: string -> Result<(string, nat)>)
  {
    && |files| == |paths|
    && forall i :: 0 <= i < |files| ==>
         && files[i].path == paths[i]
         && paths[i] in classifications && files[i].component == classifications[paths[i]]
         && hash(paths[i]) == Ok((files[i].sha256, files[i].sizeBytes))
  }

  method SumSizes(files: seq<FileEntry>) returns (total: nat)
    ensures total == TotalSize(files)
  {
    total := 0;
    for i := 0 to |files|
      invariant total == TotalSize(files[..i])
    {
      assert files[..i + 1][..i] == files[..i];
      total := total + files[i].sizeBytes;
    }
    assert files[..|files|] == files;
  }

  /** Nothing is wrong before the inventory is taken again. */
  ghost predicate Measurable(before: Node, classifications: map<string, string>, components: set<string>,
                             hash: string -> Result<(string, nat)>)
  {
    && Enumerated(before).Ok?
    && classifications.Keys == Elements(Enumerated(before).value)
    && classifications.Values == components
    && forall p :: p in Enumerated(before).value ==> hash(p).Ok?
  }

  /** What a catalog needs: the classification covers the snapshot and the components, every
      file can be hashed and the inventory is still the same afterwards. */
  ghost predicate Buildable(before: Node, after: Node, classifications: map<string, string>, components: set<string>,
                            hash: string -> Result<(string, nat)>)
  {
    Measurable(before, classifications, components, hash) && Enumerated(after) == Enumerated(before)
  }

  /** The one catalog of an inventory. */
  ghost predicate CatalogOf(c: Catalog, paths: seq<string>, classifications: map<string, string>,
                            hash: string -> Result<(string, nat)>, digest: seq<FileEntry> -> string)
  {
    && c.format == "path-sha256-size-v1"
    && c.closure == "complete_model_and_tokenizer_snapshot"
    && Records(c.files, paths, classifications, hash)
    && c.fileCount == |c.files| && c.totalSizeBytes == TotalSize(c.files) && c.filesSha256 == digest(c.files)
  }

  lemma CatalogUnique(a: Catalog, b: Catalog, paths: seq<string>, classifications: map<string, string>,
                      hash: string -> Result<(string, nat)>, digest: seq<FileEntry> -> string)
    requires CatalogOf(a, paths, classifications, hash, digest) && CatalogOf(b, paths, classifications, hash, digest)
    ensures a == b
  {
    forall i | 0 <= i < |a.files|
      ensures a.files[i] == b.files[i]
    {
      assert hash(paths[i]) == Ok((a.files[i].sha256, a.files[i].sizeBytes));
    }
    assert a.files == b.files;
  }

  /** Builds a catalog of the tree `before`; `after` is the tree when all files are hashed and
      `schema` the closing JSON Schema validation. Every catalog that is built passes the
      verifier, and where one could be built but is not, the schema refuses that very catalog. */
  method BuildArtifactCatalog(before: Node, after: Node, classifications: map<string, string>, components: set<string>,
                              hash: string -> Result<(string, nat)>, digest: seq<FileEntry> -> string,
                              schema: Catalog -> bool)
    returns (r: Result<Catalog>)
    requires before.Dir? ==> WellFormed(before.entries)
    ensures r.Ok? ==> Buildable(before, after, classifications, components, hash)
    ensures r.Ok? ==>
      && CheckCatalog(r.value, components, digest) == Ok(())
      && CatalogOf(r.value, Enumerated(before).value, classifications, hash, digest) && schema(r.value)
    ensures r.Err? && Buildable(before, after, classifications, components, hash) ==>
      && r == Err("catalog_schema_invalid")
      && exists c :: CatalogOf(c, Enumerated(before).value, classifications, hash, digest) && !schema(c)
    ensures Enumerated(before).Err? ==> r == Err(Enumerated(before).error)
    ensures Enumerated(before).Ok? && classifications.Keys != Elements(Enumerated(before).value) ==>
      r == Err("catalog_classification_incomplete")
    ensures (Enumerated(before).Ok? && classifications.Keys == Elements(Enumerated(before).value)
             && classifications.Values != components) ==> r == Err("catalog_component_closure_missing")
    ensures Measurable(before, classifications, components, hash) && Enumerated(after).Err? ==>
      r == Err(Enumerated(after).error)
    ensures (Measurable(before, classifications, components, hash)
             && Enumerated(after).Ok? && Enumerated(after) != Enumerated(before)) ==>
      r == Err("catalog_inventory_changed")
  {
    hide Sort, Compare, Visited, WellFormed, CheckCatalog, Records, Buildable, Measurable, Enumerated, TotalSize;
    var entries := CollectEntries(before, after, classifications, components, hash);
    if entries.Err? {
      return Err(entries.error);
    }
    var total := SumSizes(entries.value);
    var catalog := Catalog("path-sha256-size-v1", "complete_model_and_tokenizer_snapshot",
                           |entries.value|, total, digest(entries.value), entries.value);
    BuiltPasses(before, after, catalog, classifications, components, hash, digest);
    assert CatalogOf(catalog, Enumerated(before).value, classifications, hash, digest);
    if !schema(catalog) {
      return Err("catalog_schema_invalid");
    }
    return Ok(catalog);
  }

  /** Everything up to the finished list of entries. */
  method CollectEntries(before: Node, after: Node, classifications: map<string, string>, components: set<string>,
                        hash: string -> Result<(string, nat)>)
    returns (r: Result<seq<FileEntry>>)
    ensures r.Ok? <==> Buildable(before, after, classifications, components, hash)
    ensures r.Ok? ==> Enumerated(before).Ok? && Records(r.value, Enumerated(before).value, classifications, hash)
    ensures Enumerated(before).Err? ==> r == Err(Enumerated(before).error)
    ensures Enumerated(before).Ok? && classifications.Keys != Elements(Enumerated(before).value) ==>
      r == Err("catalog_classification_incomplete")
    ensures (Enumerated(before).Ok? && classifications.Keys == Elements(Enumerated(before).value)
             && classifications.Values != components) ==> r == Err("catalog_component_closure_missing")
    ensures Measurable(before, classifications, components, hash) && Enumerated(after).Err? ==>
      r == Err(Enumerated(after).error)
    ensures (Measurable(before, classifications, components, hash)
             && Enumerated(after).Ok? && Enumerated(after) != Enumerated(before)) ==>
      r == Err("catalog_inventory_changed")
  {
    hide Enumerated, Records;
    var files := Enumerated(before);
    if files.Err? {
      return Err(files.error);
    }
    var paths := files.value;
    if classifications.Keys != Elements(paths) {
      return Err("catalog_classification_incomplete");
    }
    if classifications.Values != components {
      return Err("catalog_component_closure_missing");
    }
    var entries := HashFiles(paths, classifications, components, hash);
    if entries.Err? {
      return Err(entries.error);
    }
    var again := Enumerated(after);
    if again.Err? {
      return Err(again.error);
    }
    if again.value != paths {
      return Err("catalog_inventory_changed");
    }
    return entries;
  }

  lemma BuiltPasses(root: Node, after: Node, c: Catalog, classifications: map<string, string>, components: set<string>,
                    hash: string -> Result<(string, nat)>, digest: seq<FileEntry> -> string)
    requires root.Dir? ==> WellFormed(root.entries)
    requires Buildable(root, after, classifications, components, hash)
    requires CatalogOf(c, Enumerated(root).value, classifications, hash, digest)
    ensures CheckCatalog(c, components, digest) == Ok(())
  {
    hide Sort, Compare, Visited, WellFormed, TotalSize, Ascending;
    var paths := Enumerated(root).value;
    assert root.Dir?;
    EnumeratedExactly(root);
    AscendingPasses(paths);
    assert Paths(c.files) == paths;
    ComponentsCovered(c.files, paths, classifications, hash);
  }

  lemma ComponentsCovered(files: seq<FileEntry>, paths: seq<string>, classifications: map<string, string>,
                          hash: string -> Result<(string, nat)>)
    requires Records(files, paths, classifications, hash) && classifications.Keys == Elements(paths)
    ensures Components(files) == classifications.Values
  {
    forall component | component in Components(files)
      ensures component in classifications.Values
    {
      var i :| 0 <= i < |files| && files[i].component == component;
      assert paths[i] in classifications.Keys;
    }
    forall component | component in classifications.Values
      ensures component in Components(files)
    {
      var p :| p in classifications.Keys && classifications[p] == component;
      assert p in Elements(paths);
      var i :| 0 <= i < |paths| && paths[i] == p;
      assert files[i] in files;
    }
  }
}
