/**
 * Alembic revisions 0031 and 0033: provenance of ingested sources, the Favorites backfill
 * that keeps private uploads reachable, and the visibility mode that replaces authorship.
 * The meaning of a mode is the policy of memexpert/ingest/policy.py.
 */
module VisibilityPolicy {
  import opened Options
  import Ordering

  datatype Kind = UserUpload | PublicCrawler | OperatorUpload

  datatype Mode = Auto | ForcePublic | ForcePrivate

  datatype Action = Publish | Hide | HideAndMarkNsfw | OverrideFlags | OtherAction

  /** A post on a platform: platform, channel or account id, post id. */
  type Ref = (string, string, string)

  datatype Meme = Meme(author: Option<nat>, isPublic: bool, createdAt: int, mode: Option<Mode>)

  datatype FileStatus = Pending | Processing | Failed | Ready

  datatype File = File(meme: nat, blocked: bool, status: FileStatus)

  datatype Source = Source(file: nat, ref: Ref, uploader: Option<nat>, kind: Option<Kind>)

  datatype Request = Request(owner: Option<nat>, uploader: Option<nat>, kind: Option<Kind>)

  datatype Decision = Decision(meme: nat, action: Action, before: bool, after: bool, at: int)

  // ---- Provenance ----

  predicate IsChannel(channels: set<(string, string)>, ref: Ref) { (ref.0, ref.1) in channels }

  function KindOf(user: Option<nat>, channel: bool): Kind {
    if user.Some? then UserUpload else if channel then PublicCrawler else OperatorUpload
  }

  function StampRequest(r: Request, ref: Ref, channels: set<(string, string)>): Request {
    r.(uploader := r.owner, kind := Some(KindOf(r.owner, IsChannel(channels, ref))))
  }

  /** resolved_source: the matching request wins, the meme's author is the fallback, column by column. */
  function StampSource(
    s: Source, request: Option<Request>, author: Option<nat>, channels: set<(string, string)>): Source
  {
    var fallback := KindOf(author, IsChannel(channels, s.ref));
    match request
    case Some(r) => s.(uploader := if r.uploader.Some? then r.uploader else author,
        kind := Some(r.kind.GetOr(fallback)))
    case None => s.(uploader := author, kind := Some(fallback))
  }

  function StampedSource(
    s: Source, request: Option<Request>, author: Option<nat>, channels: set<(string, string)>): Source
  {
    StampSource(s, if request.Some? then Some(StampRequest(request.value, s.ref, channels)) else None, author, channels)
  }

  /** Only a post of a known channel that nobody owned becomes a crawler source, and only an owned one a user upload. */
  lemma ProvenanceExactly(s: Source, request: Option<Request>, author: Option<nat>, channels: set<(string, string)>)
    ensures var owner := if request.Some? then request.value.owner else author;
            var kind := StampedSource(s, request, author, channels).kind;
            && (kind == Some(UserUpload) <==> owner.Some?)
            && (kind == Some(PublicCrawler) <==> owner.None? && IsChannel(channels, s.ref))
            && (kind == Some(OperatorUpload) <==> owner.None? && !IsChannel(channels, s.ref))
            && IsChannel(channels, s.ref) == ((s.ref.0, s.ref.1) in channels)
  {
  }

  /**
   * The request's owner is the uploader, and only without one the meme's author; nothing else of
   * the source changes.
   */
  lemma UploaderTold(s: Source, request: Option<Request>, author: Option<nat>, channels: set<(string, string)>)
    ensures var stamped := StampedSource(s, request, author, channels);
            && stamped == s.(uploader := stamped.uploader, kind := stamped.kind)
            && (request.Some? && request.value.owner.Some? ==> stamped.uploader == request.value.owner)
            && (request == None || request.value.owner == None ==> stamped.uploader == author)
  {
  }

  /** The uploader and the kind disagree exactly where an ownerless request meets a meme that has an author. */
  lemma UploaderMatchesKindExactly(
    s: Source, request: Option<Request>, author: Option<nat>, channels: set<(string, string)>)
    ensures var stamped := StampedSource(s, request, author, channels);
            (stamped.uploader.Some? <==> stamped.kind == Some(UserUpload))
            <==> !(request.Some? && request.value.owner.None? && author.Some?)
  {
  }

  /** An ownerless request for a post of an authored meme: an uploader on what is not a user upload. */
  lemma OwnerlessRequestDisagrees()
    ensures var s := Source(0, ("telegram", "c", "1"), None, None);
            var stamped := StampedSource(s, Some(Request(None, None, None)), Some(7), {("telegram", "c")});
            stamped.uploader == Some(7) && stamped.kind == Some(PublicCrawler)
  {
  }

  /** The trigger on requests while old writers still send only the owner. */
  function IngestTrigger(r: Request, ref: Ref, channels: set<(string, string)>): Request {
    var uploader := if r.uploader.Some? then r.uploader else r.owner;
    var owner := if r.owner.Some? then r.owner else uploader;
    var kind :=
      if uploader.Some? then Some(UserUpload)
      else if IsChannel(channels, ref) then Some(PublicCrawler)
      else r.kind;
    Request(owner, uploader, kind)
  }

  /**
   * What an old writer inserts during the rollout (the owner alone, with the column default as
   * kind) ends up exactly as the backfill would have left it; the trigger is idempotent, never
   * replaces an owner or an uploader, and sets both or neither.
   */
  lemma TriggerMatchesBackfill(r: Request, ref: Ref, channels: set<(string, string)>)
    ensures var t := IngestTrigger(r, ref, channels);
            && (r.uploader.None? && r.kind == Some(OperatorUpload) ==> t == StampRequest(r, ref, channels))
            && IngestTrigger(t, ref, channels) == t
            && (r.owner.Some? ==> t.owner == r.owner) && (r.uploader.Some? ==> t.uploader == r.uploader)
            && (t.owner.Some? <==> t.uploader.Some?) && (t.uploader.Some? ==> t.kind == Some(UserUpload))
  {
  }

  // ---- Decisions and modes ----

  /** The decisions that settle visibility. */
  predicate Settles(d: Decision) {
    d.action in {Publish, Hide, HideAndMarkNsfw} || (d.action == OverrideFlags && d.before != d.after)
  }

  function Settling(decisions: map<nat, Decision>, m: nat): set<nat> {
    set d | d in decisions && decisions[d].meme == m && Settles(decisions[d])
  }

  /** DISTINCT ON (meme_id) ... ORDER BY created_at DESC, id DESC. */
  function Latest(decisions: map<nat, Decision>, m: nat): (latest: Option<Decision>)
    ensures latest.Some? <==> Settling(decisions, m) != {}
    ensures latest.Some? ==> exists d :: d in Settling(decisions, m) && decisions[d] == latest.value
                                         && forall e | e in Settling(decisions, m) && e != d ::
                                              decisions[e].at < decisions[d].at
                                                  || (decisions[e].at == decisions[d].at && e < d)
  {
    var at := map d | d in decisions :: decisions[d].at;
    var ids := Settling(decisions, m);
    if ids == {} then None else
      assert ids <= at.Keys;
      var last := Ordering.Last(at, ids);
      assert forall e | e in ids && e != last :: Ordering.Before(at, e, last);
      Some(decisions[last])
  }

  /** What a settling decision asks for. */
  predicate WantsPublic(d: Decision) {
    d.action == Publish || (d.action == OverrideFlags && d.after)
  }

  /** The CASE of resolved_mode. */
  function ResolvedMode(isPublic: bool, latest: Option<Decision>, blocked: bool, crawled: bool): Mode {
    if latest.Some? && latest.value.action == Publish then ForcePublic
    else if latest.Some? && latest.value.action in {Hide, HideAndMarkNsfw} then ForcePrivate
    else if latest.Some? && latest.value.action == OverrideFlags then
      if latest.value.after then ForcePublic else ForcePrivate
    else if blocked then ForcePrivate
    else if isPublic == crawled then Auto
    else if isPublic then ForcePublic
    else ForcePrivate
  }

  /** The mode columns backfilled into every decision. */
  function BeforeMode(d: Decision): Mode { if d.before then ForcePublic else ForcePrivate }

  function AfterMode(d: Decision): Mode {
    if d.action == Publish then ForcePublic
    else if d.action in {Hide, HideAndMarkNsfw} then ForcePrivate
    else if d.after then ForcePublic
    else ForcePrivate
  }

  /** A meme with a settling decision gets the mode recorded on the latest one. */
  lemma ModeFollowsDecision(isPublic: bool, d: Decision, blocked: bool, crawled: bool)
    requires Settles(d)
    ensures ResolvedMode(isPublic, Some(d), blocked, crawled) == AfterMode(d)
    ensures AfterMode(d) == ForcePublic <==> WantsPublic(d)
  {
  }

  /** refresh_effective_visibility: what a mode makes of a meme. */
  predicate Effective(mode: Mode, crawled: bool) {
    mode == ForcePublic || (mode == Auto && crawled)
  }

  /** The WHERE clause of revision 0033. */
  predicate Restorable(mode: Mode, latest: Option<Decision>, blocked: bool, crawled: bool) {
    mode == ForcePrivate && crawled && !blocked && latest.None?
  }

  /** Whether the flag already said what the history of the meme asks for. */
  predicate FlagFollowsHistory(isPublic: bool, latest: Option<Decision>, blocked: bool) {
    if latest.Some? then isPublic == WantsPublic(latest.value) else blocked ==> !isPublic
  }

  /** After 0031 the flag equals the meaning of the mode exactly for memes whose flag followed their history. */
  lemma ModeMeansFlagExactly(isPublic: bool, latest: Option<Decision>, blocked: bool, crawled: bool)
    requires latest.Some? ==> Settles(latest.value)
    ensures Effective(ResolvedMode(isPublic, latest, blocked, crawled), crawled) == isPublic
            <==> FlagFollowsHistory(isPublic, latest, blocked)
  {
  }

  /** The flag and mode after both revisions. */
  function RestoredFlag(isPublic: bool, latest: Option<Decision>, blocked: bool, crawled: bool): bool {
    Restorable(ResolvedMode(isPublic, latest, blocked, crawled), latest, blocked, crawled) || isPublic
  }

  function RestoredMode(isPublic: bool, latest: Option<Decision>, blocked: bool, crawled: bool): Mode {
    var mode := ResolvedMode(isPublic, latest, blocked, crawled);
    if Restorable(mode, latest, blocked, crawled) then Auto else mode
  }

  /** A public meme with a blocked hash and no decision: its mode says private, its flag public. */
  lemma BlockedPublicMemeDisagrees(crawled: bool)
    ensures ResolvedMode(true, None, true, crawled) == ForcePrivate
    ensures !Effective(ResolvedMode(true, None, true, crawled), crawled) && RestoredFlag(true, None, true, crawled)
    ensures RestoredMode(true, None, true, crawled) == ForcePrivate
  {
  }

  /**
   * After 0031 and 0033 the same holds; memes without a decision or a blocked hash always
   * agree, crawled ones are public in Auto, and the flag changed only by making such a meme public.
   */
  lemma RestoredMeansFlagExactly(isPublic: bool, latest: Option<Decision>, blocked: bool, crawled: bool)
    requires latest.Some? ==> Settles(latest.value)
    ensures var flag := RestoredFlag(isPublic, latest, blocked, crawled);
            var mode := RestoredMode(isPublic, latest, blocked, crawled);
            && (Effective(mode, crawled) == flag <==> FlagFollowsHistory(isPublic, latest, blocked))
            && (latest.None? && !blocked ==> Effective(mode, crawled) == flag && flag == (isPublic || crawled))
            && (latest.None? && !blocked && crawled ==> mode == Auto)
            && (flag != isPublic <==> !isPublic && crawled && !blocked && latest.None?)
  {
  }

  /** A hidden crawled meme without a decision: 0031 alone pins it private, 0033 gives it back. */
  lemma HiddenCrawledMemeIsRestored()
    ensures ResolvedMode(false, None, false, true) == ForcePrivate
    ensures RestoredMode(false, None, false, true) == Auto && RestoredFlag(false, None, false, true)
  {
  }
}

module VisibilityMigration {
  import opened Options
  import opened VisibilityPolicy

  datatype CollectionKind = Favorites | Custom

  datatype Reach = Private | Unlisted | Public

  datatype Role = Owner | Editor | Viewer

  datatype Collection = Collection(owner: nat, title: string, kind: CollectionKind, reach: Reach)

  datatype Saved = Saved(addedBy: Option<nat>, addedAt: int)

  /** An EXISTS over the memes: the user is the author of a private one. */
  predicate HasPrivate(memes: map<nat, Meme>, u: nat) {
    exists m | m in memes :: memes[m].author == Some(u) && !memes[m].isPublic
  }

  predicate OwnsFavorites(collections: map<nat, Collection>, u: nat, c: nat) {
    c in collections && collections[c].owner == u && collections[c].kind == Favorites
  }

  predicate Crawled(files: map<nat, File>, sources: map<nat, Source>, m: nat) {
    exists s | s in sources ::
      sources[s].file in files && files[sources[s].file].meme == m && sources[s].kind == Some(PublicCrawler)
  }

  predicate Blocked(files: map<nat, File>, m: nat) {
    exists f | f in files :: files[f].meme == m && files[f].blocked
  }

  /** Whether anything has settled the visibility of a meme, and what marks it crawled or blocked. */
  lemma TruthsTold(
    decisions: map<nat, Decision>, files: map<nat, File>, sources: map<nat, Source>, m: nat)
    ensures Settling(decisions, m) == {} <==>
              forall d | d in decisions && decisions[d].meme == m ::
                && decisions[d].action != Publish && decisions[d].action != Hide
                && decisions[d].action != HideAndMarkNsfw
                && (decisions[d].action == OverrideFlags ==> decisions[d].before == decisions[d].after)
    ensures Blocked(files, m) <==> exists f :: f in files && files[f].meme == m && files[f].blocked
    ensures Crawled(files, sources, m) <==>
              exists s, f :: s in sources && sources[s].file == f && f in files && files[f].meme == m
                             && sources[s].kind == Some(PublicCrawler)
  {
    forall d | d in decisions && decisions[d].meme == m
      ensures Settles(decisions[d]) <==> d in Settling(decisions, m)
    {
    }
    if Settling(decisions, m) == {} {
      forall d | d in decisions && decisions[d].meme == m ensures !Settles(decisions[d]) {
        assert d !in Settling(decisions, m);
      }
    }
  }

  /** The unique index on the owner of a Favorites collection. */
  ghost predicate OneFavoritesPerOwner(collections: map<nat, Collection>) {
    forall c, d, u | OwnsFavorites(collections, u, c) && OwnsFavorites(collections, u, d) :: c == d
  }

  /** Private, owned by the author, with the author as owning member, and holding the meme. */
  ghost predicate SavedPrivately(
    collections: map<nat, Collection>, members: map<(nat, nat), Role>, saved: map<(nat, nat), Saved>, u: nat, m: nat)
  {
    exists c | OwnsFavorites(collections, u, c) ::
      collections[c].reach == Private && (c, u) in members && members[(c, u)] == Owner && (c, m) in saved
  }

  /** Collections stay, and their reach only ever narrows to private. */
  ghost predicate CollectionsKept(was: map<nat, Collection>, now: map<nat, Collection>) {
    forall c | c in was ::
      c in now && now[c].reach in {was[c].reach, Private} && now[c] == was[c].(reach := now[c].reach)
  }

  /** Memberships stay, with their role or raised to owner. */
  ghost predicate MembersKept(was: map<(nat, nat), Role>, now: map<(nat, nat), Role>) {
    forall k | k in was :: k in now && now[k] in {was[k], Owner}
  }

  ghost predicate SavedKept(was: map<(nat, nat), Saved>, now: map<(nat, nat), Saved>) {
    forall k | k in was :: k in now && now[k] == was[k]
  }

  ghost predicate AuthorsHaveFavorites(memes: map<nat, Meme>, users: set<nat>, collections: map<nat, Collection>) {
    forall u | u in users && HasPrivate(memes, u) :: exists c :: OwnsFavorites(collections, u, c)
  }

  ghost predicate AuthorsFavoritesClosed(memes: map<nat, Meme>, collections: map<nat, Collection>) {
    forall u, c | HasPrivate(memes, u) && OwnsFavorites(collections, u, c) :: collections[c].reach == Private
  }

  class ContentDatabase {
    var memes: map<nat, Meme>
    var files: map<nat, File>
    var sources: map<nat, Source>
    var requests: map<Ref, Request>
    var users: map<nat, Option<nat>>
    var collections: map<nat, Collection>
    var members: map<(nat, nat), Role>
    var saved: map<(nat, nat), Saved>
    const channels: set<(string, string)>
    var decisionModes: map<nat, (Mode, Mode)>
    const decisions: map<nat, Decision>
    const classified: set<nat>

    constructor (
      memes: map<nat, Meme>, files: map<nat, File>, sources: map<nat, Source>, requests: map<Ref, Request>,
      users: map<nat, Option<nat>>, collections: map<nat, Collection>, members: map<(nat, nat), Role>,
      saved: map<(nat, nat), Saved>, channels: set<(string, string)>, decisions: map<nat, Decision>,
      classified: set<nat>)
      ensures this.memes == memes && this.files == files && this.sources == sources && this.requests == requests
      ensures this.users == users && this.collections == collections && this.members == members && this.saved == saved
      ensures this.channels == channels && this.decisions == decisions && this.classified == classified
    {
      this.memes, this.files, this.sources, this.requests := memes, files, sources, requests;
      this.users, this.collections, this.members, this.saved := users, collections, members, saved;
      this.channels, this.decisions, this.classified, decisionModes := channels, decisions, classified, map[];
    }

    /** The foreign keys and the unique index of the schema. */
    ghost predicate Consistent()
      reads this
    {
      && (forall m | m in memes && memes[m].author.Some? :: memes[m].author.value in users)
      && (forall f | f in files :: files[f].meme in memes)
      && (forall s | s in sources :: sources[s].file in files)
      && (forall c | c in collections :: collections[c].owner in users)
      && OneFavoritesPerOwner(collections)
    }

    // ---- Revision 0031, statement by statement ----

    method StampRequests()
      modifies `requests
      ensures requests.Keys == old(requests).Keys
      ensures forall r | r in requests :: requests[r] == StampRequest(old(requests)[r], r, channels)
    {
      requests := map r | r in requests :: StampRequest(requests[r], r, channels);
    }

    function AuthorOf(s: Source): Option<nat>
      reads this
    {
      if s.file in files && files[s.file].meme in memes then memes[files[s.file].meme].author else None
    }

    method StampSources()
      modifies `sources
      ensures sources.Keys == old(sources).Keys
      ensures forall s | s in sources :: sources[s] ==
                var was := old(sources)[s];
                StampSource(was, if was.ref in requests then Some(requests[was.ref]) else None, AuthorOf(was), channels)
    {
      sources := map s | s in sources ::
        StampSource(sources[s], if sources[s].ref in requests then Some(requests[sources[s].ref]) else None,
                    AuthorOf(sources[s]), channels);
    }

    /** Favorites for authors of private memes who have none; `idOf` stands for the md5 of the user id. */
    method CreateFavorites(idOf: nat -> nat)
      requires Consistent()
      requires forall u | u in users :: idOf(u) !in collections
      requires forall u, v | u in users && v in users && idOf(u) == idOf(v) :: u == v
      modifies `collections
      ensures Consistent()
      ensures CollectionsKept(old(collections), collections)
      ensures forall c | c in collections && c !in old(collections) ::
                && c == idOf(collections[c].owner)
                && collections[c] == Collection(collections[c].owner, "Favorites", Favorites, Private)
                && HasPrivate(memes, collections[c].owner)
                && forall d :: !OwnsFavorites(old(collections), collections[c].owner, d)
      ensures forall u | u in users && HasPrivate(memes, u) :: exists c :: OwnsFavorites(collections, u, c)
    {
      var wanting := set u | u in users && HasPrivate(memes, u)
          && !exists c | c in collections :: OwnsFavorites(collections, u, c);
      FavoritesAdded(collections, wanting, idOf);
      ghost var was := collections;
      collections := AddFavorites(collections, wanting, idOf);
      forall u | u in users && HasPrivate(memes, u) ensures exists c :: OwnsFavorites(collections, u, c) {
        if u !in wanting {
          var c :| c in was && OwnsFavorites(was, u, c);
          assert OwnsFavorites(collections, u, c);
        }
      }
    }

    method ClosePrivateFavorites()
      requires Consistent()
      modifies `collections
      ensures Consistent() && CollectionsKept(old(collections), collections)
              && collections.Keys == old(collections).Keys
      ensures forall c | c in collections :: collections[c] ==
                var was := old(collections)[c];
                if was.kind == Favorites && HasPrivate(memes, was.owner) then was.(reach := Private) else was
    {
      ghost var was := collections;
      collections := map c | c in collections ::
        if collections[c].kind == Favorites && HasPrivate(memes, collections[c].owner)
        then collections[c].(reach := Private) else collections[c];
      forall c, d, u | OwnsFavorites(collections, u, c) && OwnsFavorites(collections, u, d) ensures c == d {
        assert OwnsFavorites(was, u, c) && OwnsFavorites(was, u, d);
      }
    }

    /** Upserts the owner's membership, raising any other role to owner. */
    method EnsureOwnership()
      modifies `members
      ensures MembersKept(old(members), members)
      ensures forall k :: k in members <==> k in old(members) || IsOwnership(collections, memes, k)
      ensures forall k | k in members ::
                members[k] == if IsOwnership(collections, memes, k) then Owner else old(members)[k]
    {
      var owning := set c | c in collections && IsOwnership(collections, memes, (c, collections[c].owner)) ::
        (c, collections[c].owner);
      members := members + map k | k in owning :: Owner;
    }

    method ChooseActiveCollections()
      requires Consistent()
      modifies `users
      ensures users.Keys == old(users).Keys
      ensures forall u | u in users :: old(users)[u].Some? || !HasPrivate(memes, u) ==> users[u] == old(users)[u]
      ensures forall u | u in users && old(users)[u].None? && HasPrivate(memes, u) ::
                if exists c :: OwnsFavorites(collections, u, c)
                then users[u].Some? && OwnsFavorites(collections, u, users[u].value)
                else users[u].None?
    {
      users := map u | u in users ::
        if users[u].None? && HasPrivate(memes, u) then FavoritesOf(collections, u) else users[u];
    }

    /** Existing saved rows stay as they are. */
    method SavePrivateMemes()
      modifies `saved
      ensures SavedKept(old(saved), saved)
      ensures forall k :: k in saved <==> k in old(saved) || IsBackfill(collections, memes, k)
      ensures forall k | k in old(saved) :: saved[k] == old(saved)[k]
      ensures forall k | k in saved && k !in old(saved) ::
                k.1 in memes && saved[k] == Saved(memes[k.1].author, memes[k.1].createdAt)
    {
      var rows := set c, m | c in collections && m in memes && IsBackfill(collections, memes, (c, m)) :: (c, m);
      saved := (map k | k in rows :: Saved(memes[k.1].author, memes[k.1].createdAt)) + saved;
    }

    method ResolveModes()
      modifies `memes
      ensures memes.Keys == old(memes).Keys
      ensures forall m | m in memes :: memes[m] == old(memes)[m].(mode := Some(
                ResolvedMode(old(memes)[m].isPublic, Latest(decisions, m), Blocked(files, m),
                    Crawled(files, sources, m))))
    {
      memes := map m | m in memes :: memes[m].(mode := Some(
        ResolvedMode(memes[m].isPublic, Latest(decisions, m), Blocked(files, m), Crawled(files, sources, m))));
    }

    method StampDecisions()
      modifies `decisionModes
      ensures decisionModes == map d | d in decisions :: (BeforeMode(decisions[d]), AfterMode(decisions[d]))
    {
      decisionModes := map d | d in decisions :: (BeforeMode(decisions[d]), AfterMode(decisions[d]));
    }

    method BackfillProvenance()
      modifies `requests, `sources
      ensures old(Consistent()) ==> Consistent()
      ensures sources.Keys == old(sources).Keys
      ensures forall s | s in sources :: sources[s] ==
                var was := old(sources)[s];
                StampedSource(was, if was.ref in old(requests) then Some(old(requests)[was.ref]) else None,
                    AuthorOf(was), channels)
    {
      StampRequests();
      StampSources();
    }

    /** Every author of a private meme has Favorites, and they are private. */
    method PrepareFavorites(idOf: nat -> nat)
      requires Consistent()
      requires forall u | u in users :: idOf(u) !in collections
      requires forall u, v | u in users && v in users && idOf(u) == idOf(v) :: u == v
      modifies `collections
      ensures Consistent() && CollectionsKept(old(collections), collections)
      ensures AuthorsHaveFavorites(memes, users.Keys, collections) && AuthorsFavoritesClosed(memes, collections)
    {
      hide HasPrivate;
      CreateFavorites(idOf);
      ghost var was := collections;
      ClosePrivateFavorites();
      forall u | u in users && HasPrivate(memes, u) ensures exists c :: OwnsFavorites(collections, u, c) {
        var c :| OwnsFavorites(was, u, c);
        assert OwnsFavorites(collections, u, c);
      }
    }

    /** Every private meme with an author ends up saved in a private Favorites collection its author owns. */
    method BackfillFavorites(idOf: nat -> nat)
      requires Consistent()
      requires forall u | u in users :: idOf(u) !in collections
      requires forall u, v | u in users && v in users && idOf(u) == idOf(v) :: u == v
      modifies `collections, `members, `users, `saved
      ensures CollectionsKept(old(collections), collections) && MembersKept(old(members), members)
              && SavedKept(old(saved), saved)
      ensures forall m | m in memes && memes[m].author.Some? && !memes[m].isPublic ::
                SavedPrivately(collections, members, saved, memes[m].author.value, m)
      ensures forall k | k in saved && k !in old(saved) :: IsBackfill(collections, memes, k)
    {
      hide HasPrivate, OwnsFavorites, IsOwnership, IsBackfill, SavedPrivately, AuthorsHaveFavorites,
          AuthorsFavoritesClosed;
      hide CollectionsKept, MembersKept, SavedKept;
      PrepareFavorites(idOf);
      EnsureOwnership();
      ChooseActiveCollections();
      SavePrivateMemes();
      forall m | m in memes && memes[m].author.Some? && !memes[m].isPublic
        ensures SavedPrivately(collections, members, saved, memes[m].author.value, m)
      {
        Reachable(memes[m].author.value, m);
      }
    }

    /** The whole upgrade of revision 0031. */
    method Upgrade0031(idOf: nat -> nat)
      requires Consistent()
      requires forall u | u in users :: idOf(u) !in collections
      requires forall u, v | u in users && v in users && idOf(u) == idOf(v) :: u == v
      modifies `requests, `sources, `collections, `members, `users, `saved, `memes, `decisionModes
      ensures CollectionsKept(old(collections), collections) && MembersKept(old(members), members)
              && SavedKept(old(saved), saved)
      ensures forall m | m in memes && memes[m].author.Some? && !memes[m].isPublic ::
                SavedPrivately(collections, members, saved, memes[m].author.value, m)
      ensures forall k | k in saved && k !in old(saved) :: IsBackfill(collections, old(memes), k)
      ensures sources.Keys == old(sources).Keys
      ensures forall s | s in sources :: sources[s] ==
                var was := old(sources)[s];
                StampedSource(was, if was.ref in old(requests) then Some(old(requests)[was.ref]) else None,
                              old(AuthorOf(was)), channels)
      ensures memes.Keys == old(memes).Keys
      ensures forall m | m in memes :: memes[m] == old(memes)[m].(mode := Some(
                ResolvedMode(old(memes)[m].isPublic, Latest(decisions, m), Blocked(files, m),
                    Crawled(files, sources, m))))
      ensures decisionModes.Keys == decisions.Keys && forall m | m in memes :: ModeRecorded(m)
      ensures forall d | d in decisions ::
                && (decisionModes[d].0 == ForcePublic <==> decisions[d].before)
                && (decisionModes[d].0 == ForcePrivate <==> !decisions[d].before)
                && (decisionModes[d].1 == ForcePublic <==>
                      decisions[d].action == Publish
                      || (decisions[d].after && decisions[d].action != Hide && decisions[d].action != HideAndMarkNsfw))
                && decisionModes[d].1 != Auto
    {
      hide HasPrivate, StampSource, StampRequest, SavedPrivately, IsBackfill, CollectionsKept, MembersKept, SavedKept;
      hide ResolvedMode, Latest, Crawled, Blocked;
      BackfillProvenance();
      BackfillFavorites(idOf);
      ResolveModes();
      StampDecisions();
      forall m | m in memes ensures ModeRecorded(m) { DecisionRecorded(m); }
    }

    /** A meme with a settling decision has the new mode recorded on the latest of them. */
    ghost predicate ModeRecorded(m: nat)
      requires m in memes
      reads this
    {
      Settling(decisions, m) != {} ==>
        exists d | d in decisions && Some(decisions[d]) == Latest(decisions, m) ::
          d in decisionModes && memes[m].mode == Some(decisionModes[d].1)
    }

    lemma DecisionRecorded(m: nat)
      requires m in memes
      requires decisionModes == map d | d in decisions :: (BeforeMode(decisions[d]), AfterMode(decisions[d]))
      requires memes[m].mode == Some(
                 ResolvedMode(memes[m].isPublic, Latest(decisions, m), Blocked(files, m), Crawled(files, sources, m)))
      ensures ModeRecorded(m)
    {
      if Settling(decisions, m) != {} {
        var latest := Latest(decisions, m);
        var d :| d in Settling(decisions, m) && decisions[d] == latest.value;
        ModeFollowsDecision(memes[m].isPublic, decisions[d], Blocked(files, m), Crawled(files, sources, m));
        assert Some(decisions[d]) == latest && d in decisionModes;
      }
    }

    lemma Reachable(u: nat, m: nat)
      requires m in memes && memes[m].author == Some(u) && !memes[m].isPublic && u in users
      requires AuthorsHaveFavorites(memes, users.Keys, collections) && AuthorsFavoritesClosed(memes, collections)
      requires forall k | IsOwnership(collections, memes, k) :: k in members && members[k] == Owner
      requires forall k | IsBackfill(collections, memes, k) :: k in saved
      ensures SavedPrivately(collections, members, saved, u, m)
    {
      assert HasPrivate(memes, u);
      var c :| OwnsFavorites(collections, u, c);
      assert IsOwnership(collections, memes, (c, u));
      assert IsBackfill(collections, memes, (c, m));
    }

    // ---- Revision 0033 ----

    method RestoreCrawled()
      requires forall m | m in memes :: memes[m].mode.Some?
      modifies `memes
      ensures memes.Keys == old(memes).Keys
      ensures forall m | m in memes :: memes[m] ==
                var was := old(memes)[m];
                if Restorable(was.mode.value, Latest(decisions, m), Blocked(files, m), Crawled(files, sources, m))
                then was.(mode := Some(Auto), isPublic := true) else was
    {
      memes := map m | m in memes ::
        if Restorable(memes[m].mode.value, Latest(decisions, m), Blocked(files, m), Crawled(files, sources, m))
        then memes[m].(mode := Some(Auto), isPublic := true) else memes[m];
    }

    /** A classified file is ready again; a pending one is not touched. */
    method ReadyClassifiedFiles()
      modifies `files
      ensures files.Keys == old(files).Keys
      ensures forall f | f in files :: files[f] == old(files)[f].(status := files[f].status)
      ensures forall f | f in files :: files[f].status ==
                if f in classified && old(files)[f].status in {Processing, Failed} then Ready else old(files)[f].status
    {
      files := map f | f in files ::
        if f in classified && files[f].status in {Processing, Failed} then files[f].(status := Ready) else files[f];
    }

    /** The whole upgrade of revision 0033; which files are crawled or blocked does not change. */
    method Upgrade0033()
      requires forall m | m in memes :: memes[m].mode.Some?
      modifies `memes, `files
      ensures memes.Keys == old(memes).Keys && files.Keys == old(files).Keys
      ensures forall m ::
                Crawled(files, sources, m) == Crawled(old(files), sources, m)
                    && Blocked(files, m) == Blocked(old(files), m)
      ensures forall m | m in memes :: memes[m] ==
                var was := old(memes)[m];
                if Restorable(was.mode.value, Latest(decisions, m), Blocked(files, m), Crawled(files, sources, m))
                then was.(mode := Some(Auto), isPublic := true) else was
      ensures forall f | f in files :: files[f].status == Ready <==>
                old(files)[f].status == Ready || (f in classified && old(files)[f].status != Pending)
    {
      hide Crawled, Blocked, Restorable, Latest;
      ghost var was := files;
      RestoreCrawled();
      ReadyClassifiedFiles();
      forall m ensures Crawled(files, sources, m) == Crawled(was, sources, m) && Blocked(files, m) == Blocked(was, m) {
        SameFiles(was, files, sources, m);
      }
    }

    /** Both revisions in a row, on a database that has no modes yet. */
    method Upgrade(idOf: nat -> nat)
      requires Consistent()
      requires forall u | u in users :: idOf(u) !in collections
      requires forall u, v | u in users && v in users && idOf(u) == idOf(v) :: u == v
      modifies this
      ensures memes.Keys == old(memes).Keys
      ensures forall m | m in memes ::
                memes[m].author == old(memes)[m].author && memes[m].createdAt == old(memes)[m].createdAt
      ensures CollectionsKept(old(collections), collections)
      ensures MembersKept(old(members), members) && SavedKept(old(saved), saved)
      ensures forall m | m in memes && memes[m].author.Some? && !old(memes)[m].isPublic ::
                SavedPrivately(collections, members, saved, memes[m].author.value, m)
      ensures forall m | m in memes :: memes[m].mode.Some?
      ensures files.Keys == old(files).Keys
      ensures forall f | f in files :: files[f].status == Ready <==>
                old(files)[f].status == Ready || (f in classified && old(files)[f].status != Pending)
      ensures forall m | m in memes ::
                (memes[m].isPublic == Effective(memes[m].mode.value, Crawled(files, sources, m)))
                <==> FlagFollowsHistory(old(memes)[m].isPublic, Latest(decisions, m), Blocked(old(files), m))
      ensures forall m | m in memes && Settling(decisions, m) == {} && !Blocked(old(files), m) ::
                memes[m].isPublic == Effective(memes[m].mode.value, Crawled(files, sources, m))
      ensures forall m | m in memes ::
                memes[m].isPublic == old(memes)[m].isPublic
                || (Crawled(files, sources, m) && !Blocked(old(files), m) && Settling(decisions, m) == {})
    {
      hide SavedPrivately, CollectionsKept, MembersKept, SavedKept, IsBackfill, StampedSource, Consistent, ModeRecorded;
      hide ResolvedMode, Restorable, Crawled, Blocked, FlagFollowsHistory, Effective, Settling;
      ghost var before := memes;
      Upgrade0031(idOf);
      Upgrade0033();
      forall m | m in memes ensures MemeRepaired(before[m], memes[m], m) {
        RepairedMeansFlag(before[m], memes[m], m);
      }
    }

    /** What both revisions together promise of one meme. */
    ghost predicate MemeRepaired(was: Meme, now: Meme, m: nat)
      reads this
    {
      var latest, blocked, crawled := Latest(decisions, m), Blocked(files, m), Crawled(files, sources, m);
      && now.author == was.author && now.createdAt == was.createdAt && now.mode.Some?
      && (now.isPublic == Effective(now.mode.value, crawled) <==> FlagFollowsHistory(was.isPublic, latest, blocked))
      && (Settling(decisions, m) == {} && !blocked ==> now.isPublic == Effective(now.mode.value, crawled))
      && (now.isPublic == was.isPublic || (crawled && !blocked && Settling(decisions, m) == {}))
    }

    lemma RepairedMeansFlag(was: Meme, now: Meme, m: nat)
      requires var latest, blocked, crawled := Latest(decisions, m), Blocked(files, m), Crawled(files, sources, m);
               var mode := ResolvedMode(was.isPublic, latest, blocked, crawled);
               now == if Restorable(mode, latest, blocked, crawled)
                      then was.(mode := Some(Auto), isPublic := true) else was.(mode := Some(mode))
      ensures MemeRepaired(was, now, m)
    {
      hide Blocked, Crawled;
      RestoredMeansFlagExactly(was.isPublic, Latest(decisions, m), Blocked(files, m), Crawled(files, sources, m));
    }
  }

  function NewFavorites(u: nat): Collection { Collection(u, "Favorites", Favorites, Private) }

  function AddFavorites(collections: map<nat, Collection>, wanting: set<nat>, idOf: nat -> nat): map<nat, Collection>
    requires forall u, v | u in wanting && v in wanting && idOf(u) == idOf(v) :: u == v
  {
    var ownerOf := map u | u in wanting :: idOf(u) := u;
    collections + map c | c in ownerOf :: NewFavorites(ownerOf[c])
  }

  lemma FavoritesAdded(collections: map<nat, Collection>, wanting: set<nat>, idOf: nat -> nat)
    requires forall u, v | u in wanting && v in wanting && idOf(u) == idOf(v) :: u == v
    requires forall u | u in wanting :: idOf(u) !in collections && forall c :: !OwnsFavorites(collections, u, c)
    ensures var after := AddFavorites(collections, wanting, idOf);
            && (forall c | c in collections :: c in after && after[c] == collections[c])
            && (forall c | c in after && c !in collections ::
                  after[c].owner in wanting && c == idOf(after[c].owner) && after[c] == NewFavorites(after[c].owner))
            && (forall u | u in wanting :: OwnsFavorites(after, u, idOf(u)))
            && (OneFavoritesPerOwner(collections) ==> OneFavoritesPerOwner(after))
  {
    var after := AddFavorites(collections, wanting, idOf);
    forall u | u in wanting ensures OwnsFavorites(after, u, idOf(u)) {
      var ownerOf := map v | v in wanting :: idOf(v) := v;
      assert idOf(u) in ownerOf;
    }
    if OneFavoritesPerOwner(collections) {
      forall c, d, u | OwnsFavorites(after, u, c) && OwnsFavorites(after, u, d) ensures c == d {
        if c in collections { assert OwnsFavorites(collections, u, c); }
        if d in collections { assert OwnsFavorites(collections, u, d); }
      }
    }
  }

  predicate IsOwnership(collections: map<nat, Collection>, memes: map<nat, Meme>, k: (nat, nat)) {
    OwnsFavorites(collections, k.1, k.0) && HasPrivate(memes, k.1)
  }

  predicate IsBackfill(collections: map<nat, Collection>, memes: map<nat, Meme>, k: (nat, nat)) {
    && k.1 in memes && !memes[k.1].isPublic && memes[k.1].author.Some?
    && OwnsFavorites(collections, memes[k.1].author.value, k.0)
  }

  function FavoritesOf(collections: map<nat, Collection>, u: nat): (r: Option<nat>)
    requires OneFavoritesPerOwner(collections)
    ensures r.Some? ==> OwnsFavorites(collections, u, r.value)
    ensures r.None? ==> forall c :: !OwnsFavorites(collections, u, c)
  {
    if c :| c in collections && OwnsFavorites(collections, u, c) then Some(c) else None
  }

  lemma SameFiles(was: map<nat, File>, files: map<nat, File>, sources: map<nat, Source>, m: nat)
    requires files.Keys == was.Keys && forall f | f in files :: files[f] == was[f].(status := files[f].status)
    ensures Crawled(files, sources, m) == Crawled(was, sources, m) && Blocked(files, m) == Blocked(was, m)
  {
  }
}
