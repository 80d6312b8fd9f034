/**
 The CDN node: documents, metadata and packages under the file name of their DID, and a manifest
 with one entry per DID.
 */
module CdnNode {
  import opened Documents
  import opened Packages
  import opened DidAns
  import opened Wrappers

  datatype ManifestEntry = ManifestEntry(
    did: string,
    role: string,
    documentPath: string,
    metadataPath: string,
    packagePath: string,
    documentHash: string)

  datatype Manifest = Manifest(rootDid: string, packages: seq<ManifestEntry>)

  /** There is no manifest before the first publication. */
  datatype Cdn = Cdn(
    documents: map<string, DidDocument>,
    metadata: map<string, AgentMetadata>,
    packages: map<string, VerifiedPackage>,
    manifest: Option<Manifest>)

  function EntryOf(p: VerifiedPackage): ManifestEntry {
    ManifestEntry(p.did, p.metadata.role, "/cdn/documents/" + p.did, "/cdn/metadata/" + p.did, "/cdn/packages/" + p.did, p.documentHash)
  }

  function EntriesOf(ps: seq<VerifiedPackage>): seq<ManifestEntry> {
    seq(|ps|, i requires 0 <= i < |ps| => EntryOf(ps[i]))
  }

  /** `manifest.packages.retain(|entry| entry.did != did)` */
  function Retained(entries: seq<ManifestEntry>, did: string): seq<ManifestEntry> {
    if entries == [] then []
    else if entries[0].did == did then Retained(entries[1..], did)
    else [entries[0]] + Retained(entries[1..], did)
  }

  function Entries(s: Cdn): seq<ManifestEntry> {
    if s.manifest.Some? then s.manifest.value.packages else []
  }

  function Stored(s: Cdn, p: VerifiedPackage): Cdn {
    var file := DidToFileName(p.did);
    Cdn(s.documents[file := p.document], s.metadata[file := p.metadata], s.packages[file := p],
      Some(Manifest(p.rootProof.rootDid, Retained(Entries(s), p.did) + [EntryOf(p)])))
  }

  const EMPTY := Cdn(map[], map[], map[], None)

  /** The node after a run of publications. */
  function AfterPosts(posts: seq<VerifiedPackage>): Cdn {
    if posts == [] then EMPTY else Stored(AfterPosts(posts[..|posts| - 1]), posts[|posts| - 1])
  }

  class Store {
    var documents: map<string, DidDocument>
    var metadata: map<string, AgentMetadata>
    var packages: map<string, VerifiedPackage>
    var manifest: Option<Manifest>

    function Now(): Cdn
      reads this
    {
      Cdn(documents, metadata, packages, manifest)
    }

    constructor ()
      ensures Now() == EMPTY
    {
      documents, metadata, packages, manifest := map[], map[], map[], None;
    }

    method PublishPackage(p: VerifiedPackage)
      modifies this
      ensures Now() == Stored(old(Now()), p)
    {
      var file := DidToFileName(p.did);
      documents := documents[file := p.document];
      metadata := metadata[file := p.metadata];
      packages := packages[file := p];
      var current := manifest.UnwrapOr(Manifest(p.rootProof.rootDid, []));
      current := current.(rootDid := p.rootProof.rootDid);
      current := current.(packages := Retained(current.packages, p.did));
      current := current.(packages := current.packages + [EntryOf(p)]);
      manifest := Some(current);
    }
  }

  // ----- what the run says should be there -----

  /** The package published last for a DID. */
  function LatestFor(posts: seq<VerifiedPackage>, did: string): Option<VerifiedPackage> {
    if posts == [] then None
    else if posts[|posts| - 1].did == did then Some(posts[|posts| - 1])
    else LatestFor(posts[..|posts| - 1], did)
  }

  /** The package published last under a file name. */
  function LatestUnder(posts: seq<VerifiedPackage>, file: string): Option<VerifiedPackage> {
    if posts == [] then None
    else if DidToFileName(posts[|posts| - 1].did) == file then Some(posts[|posts| - 1])
    else LatestUnder(posts[..|posts| - 1], file)
  }

  /** The publications no later one of the same DID replaces, in their order. */
  function Survivors(posts: seq<VerifiedPackage>): seq<VerifiedPackage> {
    if posts == [] then []
    else
      var rest := Survivors(posts[1..]);
      if exists i :: 1 <= i < |posts| && posts[i].did == posts[0].did then rest else [posts[0]] + rest
  }

  ghost predicate AllParse(posts: seq<VerifiedPackage>) {
    forall i :: 0 <= i < |posts| ==> Parse(posts[i].did).Ok?
  }

  // ----- the stores -----

  /** Every file holds the parts of the package published last under its name, and no other file exists. */
  lemma {:induction false} FilesHoldTheLatest(posts: seq<VerifiedPackage>, file: string)
    ensures var s, latest := AfterPosts(posts), LatestUnder(posts, file);
      && (file in s.packages <==> latest.Some?) && (file in s.documents <==> latest.Some?) && (file in s.metadata <==> latest.Some?)
      && (latest.Some? ==>
            s.packages[file] == latest.value && s.documents[file] == latest.value.document && s.metadata[file] == latest.value.metadata)
  {
    hide DidToFileName;
    if posts != [] {
      FilesHoldTheLatest(posts[..|posts| - 1], file);
    }
  }

  /** No publication after the last one of `did` shares its file name. */
  predicate NotOverwritten(posts: seq<VerifiedPackage>, did: string) {
    posts != [] ==>
      var p := posts[|posts| - 1];
      p.did == did || (DidToFileName(p.did) != DidToFileName(did) && NotOverwritten(posts[..|posts| - 1], did))
  }

  /** A published DID is served its own latest package exactly when no later DID took over the file. */
  lemma {:induction false} ServedIffNotOverwritten(posts: seq<VerifiedPackage>, did: string)
    requires LatestFor(posts, did).Some?
    ensures var s, file := AfterPosts(posts), DidToFileName(did);
      file in s.packages && (s.packages[file] == LatestFor(posts, did).value <==> NotOverwritten(posts, did))
  {
    hide DidToFileName, Retained;
    LatestForIsOwn(posts, did);
    if posts[|posts| - 1].did != did {
      ServedIffNotOverwritten(posts[..|posts| - 1], did);
    }
  }

  lemma {:induction false} LatestForIsOwn(posts: seq<VerifiedPackage>, did: string)
    ensures LatestFor(posts, did).Some? ==> LatestFor(posts, did).value.did == did && LatestFor(posts, did).value in posts
    ensures LatestFor(posts, did).None? ==> forall p :: p in posts ==> p.did != did
  {
    if posts != [] {
      LatestForIsOwn(posts[..|posts| - 1], did);
      assert posts == posts[..|posts| - 1] + [posts[|posts| - 1]];
    }
  }

  /** With identifiers the parser accepts, no file is ever taken over. */
  lemma {:induction false} ParsedAreServed(posts: seq<VerifiedPackage>, did: string)
    requires AllParse(posts) && Parse(did).Ok?
    ensures LatestUnder(posts, DidToFileName(did)) == LatestFor(posts, did)
    ensures LatestFor(posts, did).Some? ==> NotOverwritten(posts, did)
  {
    hide DidToFileName, Parse;
    if posts != [] {
      FileNamesInjective(posts[|posts| - 1].did, did);
      ParsedAreServed(posts[..|posts| - 1], did);
    }
  }

  /** The node does not parse the DID it is given, and then a file can be taken over: the manifest lists both. */
  lemma UnparsedCanOverwrite(p: VerifiedPackage, q: VerifiedPackage)
    requires Parse(p.did).Ok? && q.did == Replace(p.did, ':', '_')
    ensures Parse(q.did).Err? && AfterPosts([p, q]).packages == map[DidToFileName(p.did) := q]
    ensures Entries(AfterPosts([p, q])) == [EntryOf(p), EntryOf(q)]
  {
    hide Replace, Parse, EntryOf;
    UnderscoresShareName(p.did);
    assert [p, q][..1] == [p] && [p][..0] == [];
    var one := AfterPosts([p]);
    assert one == Stored(AfterPosts([]), p) && Entries(one) == [] + [EntryOf(p)] == [EntryOf(p)];
    assert AfterPosts([p, q]) == Stored(one, q);
    TwoEntries(p, q);
    assert Entries(Stored(one, q)) == [EntryOf(p)] + [EntryOf(q)];
  }

  lemma TwoEntries(p: VerifiedPackage, q: VerifiedPackage)
    requires p.did != q.did
    ensures Retained([EntryOf(p)], q.did) == [EntryOf(p)]
  {
    assert [EntryOf(p)][1..] == [];
  }

  lemma UnderscoresShareName(did: string)
    requires Parse(did).Ok?
    ensures var alias := Replace(did, ':', '_'); Parse(alias).Err? && alias != did && DidToFileName(alias) == DidToFileName(did)
  {
    hide Replace, Split;
    var alias := Replace(did, ':', '_');
    ParsedIsAssembled(did);
    assert did[3] == ':';
    ReplacedAt(did, 3);
    forall i | 0 <= i < |did| ensures Replace(alias, ':', '_')[i] == alias[i] {
      ReplacedAt(did, i);
      ReplacedAt(alias, i);
    }
    assert Replace(alias, ':', '_') == alias;
    assert alias[..8][3] == alias[3] != DID_PREFIX[3];
  }

  lemma ReplacedAt(s: string, i: nat)
    requires i < |s|
    ensures Replace(s, ':', '_')[i] == if s[i] == ':' then '_' else s[i]
  {
  }

  // ----- the manifest -----

  lemma {:induction false} RetainedEntries(ps: seq<VerifiedPackage>, did: string)
    ensures Retained(EntriesOf(ps), did) == EntriesOf(Without(ps, did))
  {
    if ps != [] {
      RetainedEntries(ps[1..], did);
      assert EntriesOf(ps)[1..] == EntriesOf(ps[1..]);
      assert EntriesOf([ps[0]] + Without(ps[1..], did)) == [EntryOf(ps[0])] + EntriesOf(Without(ps[1..], did));
    }
  }

  lemma {:induction false} SurvivorsSnoc(posts: seq<VerifiedPackage>, p: VerifiedPackage)
    ensures Survivors(posts + [p]) == Without(Survivors(posts), p.did) + [p]
  {
    var longer := posts + [p];
    if posts == [] {
      assert longer[1..] == [];
    } else {
      SurvivorsSnoc(posts[1..], p);
      assert longer[1..] == posts[1..] + [p];
      assert longer[|posts|] == p;
      var rest := Survivors(posts[1..]);
      assert ([posts[0]] + rest)[1..] == rest;
      if i :| 1 <= i < |posts| && posts[i].did == posts[0].did {
        assert longer[i] == posts[i];
      }
    }
  }

  /** The manifest lists exactly the publications that were not replaced, in their order. */
  lemma {:induction false} ManifestListsSurvivors(posts: seq<VerifiedPackage>)
    ensures Entries(AfterPosts(posts)) == EntriesOf(Survivors(posts))
  {
    hide DidToFileName;
    hide EntryOf, Without, Retained;
    if posts != [] {
      hide Survivors;
      var init, p := posts[..|posts| - 1], posts[|posts| - 1];
      ManifestListsSurvivors(init);
      SurvivorsSnoc(init, p);
      RetainedEntries(Survivors(init), p.did);
      assert posts == init + [p];
      assert EntriesOf(Without(Survivors(init), p.did) + [p]) == EntriesOf(Without(Survivors(init), p.did)) + [EntryOf(p)];
    }
  }

  /** One survivor per published DID, and it is the latest. */
  lemma {:induction false} SurvivorsAreLatest(posts: seq<VerifiedPackage>)
    ensures OnePerDid(Survivors(posts))
    ensures forall p :: p in Survivors(posts) <==> LatestFor(posts, p.did) == Some(p)
  {
    if posts != [] {
      var init, last := posts[..|posts| - 1], posts[|posts| - 1];
      SurvivorsAreLatest(init);
      SurvivorsSnoc(init, last);
      assert posts == init + [last];
      var kept := Without(Survivors(init), last.did);
      WithoutOnePerDid(Survivors(init), last.did);
      forall p ensures p in kept <==> p in Survivors(init) && p.did != last.did {
        WithoutMembers(Survivors(init), last.did, p);
      }
      forall i | 0 <= i < |kept| ensures kept[i].did != last.did {
        assert kept[i] in kept;
      }
    }
  }

  /**
   With parsed identifiers: as many entries as stored packages, one per DID, each describing the
   package, the document and the metadata stored for it, and every stored package listed.
   */
  lemma OneEntryPerPackage(posts: seq<VerifiedPackage>)
    requires AllParse(posts)
    ensures var s, entries := AfterPosts(posts), Entries(AfterPosts(posts));
      && |entries| == |s.packages|
      && (forall i: nat :: i < |entries| ==> Describes(s, entries[i]))
      && (forall i, j :: 0 <= i < j < |entries| ==> entries[i].did != entries[j].did)
      && (forall file :: file in s.packages ==> EntryOf(s.packages[file]) in entries && file == DidToFileName(s.packages[file].did))
  {
    hide DidToFileName, Parse, AfterPosts, LatestFor, Survivors, Describes;
    var s, survivors := AfterPosts(posts), Survivors(posts);
    ManifestListsSurvivors(posts);
    SurvivorsAreLatest(posts);
    forall i: nat | i < |survivors| ensures Describes(s, EntryOf(survivors[i])) {
      SurvivorServed(posts, survivors[i]);
    }
    forall file | file in s.packages
      ensures EntryOf(s.packages[file]) in Entries(s) && file == DidToFileName(s.packages[file].did)
    {
      StoredSurvives(posts, file);
      var k :| 0 <= k < |survivors| && survivors[k] == s.packages[file];
      assert Entries(s)[k] == EntryOf(survivors[k]);
    }
    CountSurvivors(posts);
  }

  /** Each entry gives the DID, the role, the document hash and the addresses of the package stored under its DID. */
  lemma EntriesSayWhatIsStored(posts: seq<VerifiedPackage>, i: nat)
    requires AllParse(posts) && i < |Entries(AfterPosts(posts))|
    ensures var s, entry := AfterPosts(posts), Entries(AfterPosts(posts))[i];
      && DidToFileName(entry.did) in s.packages && var p := s.packages[DidToFileName(entry.did)];
      && entry.did == p.did && entry.role == p.metadata.role && entry.documentHash == p.documentHash
      && entry.documentPath == "/cdn/documents/" + p.did && entry.metadataPath == "/cdn/metadata/" + p.did
      && entry.packagePath == "/cdn/packages/" + p.did
  {
    hide DidToFileName, AfterPosts, AllParse;
    OneEntryPerPackage(posts);
    assert Describes(AfterPosts(posts), Entries(AfterPosts(posts))[i]);
  }

  lemma CountSurvivors(posts: seq<VerifiedPackage>)
    requires AllParse(posts)
    ensures |Survivors(posts)| == |AfterPosts(posts).packages|
  {
    hide DidToFileName, Parse, AfterPosts, LatestFor, Survivors, Describes;
    var packages, survivors := AfterPosts(posts).packages, Survivors(posts);
    SurvivorsAreLatest(posts);
    var names := seq(|survivors|, i requires 0 <= i < |survivors| => DidToFileName(survivors[i].did));
    forall i: nat | i < |names| ensures names[i] in packages && packages[names[i]] == survivors[i] {
      SurvivorServed(posts, survivors[i]);
    }
    forall name ensures name in names <==> name in packages.Keys {
      if name in packages {
        StoredSurvives(posts, name);
        var k :| 0 <= k < |survivors| && survivors[k] == packages[name];
        assert names[k] == name;
      }
    }
    Count(names, packages.Keys);
  }

  /** An entry names a stored package and agrees with everything stored for it. */
  ghost predicate Describes(s: Cdn, entry: ManifestEntry) {
    var file := DidToFileName(entry.did);
    && file in s.packages && file in s.documents && file in s.metadata
    && entry == EntryOf(s.packages[file])
    && s.documents[file] == s.packages[file].document && s.metadata[file] == s.packages[file].metadata
  }

  lemma SurvivorServed(posts: seq<VerifiedPackage>, p: VerifiedPackage)
    requires AllParse(posts) && LatestFor(posts, p.did) == Some(p)
    ensures var s, file := AfterPosts(posts), DidToFileName(p.did);
      file in s.packages && s.packages[file] == p && Describes(s, EntryOf(p))
  {
    hide DidToFileName, Parse, AfterPosts;
    LatestForIsOwn(posts, p.did);
    ParsedAreServed(posts, p.did);
    FilesHoldTheLatest(posts, DidToFileName(p.did));
  }

  lemma {:induction false} LatestUnderIsOwn(posts: seq<VerifiedPackage>, file: string)
    requires LatestUnder(posts, file).Some?
    ensures DidToFileName(LatestUnder(posts, file).value.did) == file && LatestUnder(posts, file).value in posts
  {
    hide DidToFileName;
    if DidToFileName(posts[|posts| - 1].did) != file {
      LatestUnderIsOwn(posts[..|posts| - 1], file);
    }
  }

  lemma StoredSurvives(posts: seq<VerifiedPackage>, file: string)
    requires AllParse(posts) && file in AfterPosts(posts).packages
    ensures var p := AfterPosts(posts).packages[file];
      LatestFor(posts, p.did) == Some(p) && DidToFileName(p.did) == file && p in Survivors(posts)
  {
    hide DidToFileName, Parse, AfterPosts, Survivors;
    FilesHoldTheLatest(posts, file);
    LatestUnderIsOwn(posts, file);
    ParsedAreServed(posts, AfterPosts(posts).packages[file].did);
    SurvivorsAreLatest(posts);
  }

  /** A list without repetitions and the set of its members have the same size. */
  lemma {:induction false} Count(names: seq<string>, keys: set<string>)
    requires forall i, j :: 0 <= i < j < |names| ==> names[i] != names[j]
    requires forall name :: name in names <==> name in keys
    ensures |names| == |keys|
  {
    if names == [] {
      assert keys == {};
    } else {
      var rest, fewer := names[1..], keys - {names[0]};
      assert names == [names[0]] + rest;
      forall name ensures name in rest <==> name in fewer {
        assert name in names <==> name == names[0] || name in rest;
      }
      Count(rest, fewer);
    }
  }
}
