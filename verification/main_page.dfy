/**
 * The main page's own logic: its contact-form texts, the comments panel
 * (loading with the owner's pinned fallback, posting a comment, the
 * pinned / visible / scrollable split of the list) and the project hashtags.
 */
module MainPage {
  import opened Common
  import opened Text
  import opened Comments
  import CommentsApi
  import Seed
  import Forms

  /** The main page's contact-form error texts. */
  const FormMessages: Forms.Messages := Forms.Messages(
    "Name is required", "Email is required", "Invalid email",
    "Message is required", "Message must be at least 10 characters")

  /** The id of the locally built pinned comment. */
  const DefaultPinnedId: string := "default-pinned"

  /** The pinned owner comment the page shows when the list lacks one; `today` is the locale date string of now. */
  function DefaultPinned(today: string): (c: Record)
    ensures IsOwnerPinned(c.isPinned, c.name)
    ensures c.id == DefaultPinnedId && c.timestamp == today
    ensures c.message == OwnerMessage && c.profilePhoto == Some(OwnerPhoto)
  {
    Record(DefaultPinnedId, OwnerName, OwnerMessage, today, true, Some(OwnerPhoto))
  }

  /** `comments.some(c => c.isPinned && c.name === 'Thanh Tai')`. */
  predicate HasOwnerComment(cs: seq<Record>) {
    exists i :: 0 <= i < |cs| && IsOwnerPinned(cs[i].isPinned, cs[i].name)
  }

  /** The outcome of `fetchComments()`. */
  datatype Fetch = Fetched(records: seq<Record>) | FetchFailed

  /** A photo the visitor picked: none, or a file whose upload yields a URL or fails (None). */
  datatype Photo = NoPhoto | Picked(upload: Option<string>)

  /** The comments panel's state. */
  datatype Panel = Panel(
    comments: seq<Record>, loading: bool,
    name: string, message: string, photo: Photo, preview: Option<string>,
    submitting: bool)

  /**
   * `loadComments`: the fetched list, with the default pinned comment put in
   * front when it has no owner comment; on failure the default comment alone.
   */
  function LoadComments(p: Panel, f: Fetch, today: string): (r: Panel)
    ensures !r.loading && HasOwnerComment(r.comments)
    ensures f.FetchFailed? ==> r.comments == [DefaultPinned(today)]
    ensures f.Fetched? && HasOwnerComment(f.records) ==> r.comments == f.records
    ensures f.Fetched? && !HasOwnerComment(f.records) ==> r.comments == [DefaultPinned(today)] + f.records
    ensures r == p.(comments := r.comments, loading := false)
  {
    var cs :=
      match f
      case FetchFailed => (WithDefaultHasOwner(today, []); [DefaultPinned(today)] + [])
      case Fetched(records) =>
        (if HasOwnerComment(records) then records
         else WithDefaultHasOwner(today, records); [DefaultPinned(today)] + records);
    p.(comments := cs, loading := false)
  }

  lemma WithDefaultHasOwner(today: string, records: seq<Record>)
    ensures HasOwnerComment([DefaultPinned(today)] + records)
  {
    assert ([DefaultPinned(today)] + records)[0] == DefaultPinned(today);
  }

  /** Loading again a list the panel already shows keeps it as it is: the fallback is added at most once. */
  lemma ReloadIsStable(p: Panel, f: Fetch, today: string, later: string)
    ensures var q := LoadComments(p, f, today);
      LoadComments(q, Fetched(q.comments), later) == q
  {
  }

  /**
   * Once the backend's seeding has run and its database calls succeeded
   * (`dbOk`), a successful listing already holds the owner comment, so the
   * page adds no fallback.
   */
  lemma SeededListNeedsNoFallback(p: Panel, store: seq<Row>, id: string, seededAt: int, dbOk: bool, now: int, localeDate: int -> string, today: string)
    ensures var listing := CommentsApi.Get(CommentsApi.Rows(Seed.SeedStore(store, id, seededAt, dbOk)), now, localeDate);
      dbOk ==> LoadComments(p, Fetched(listing.records), today).comments == listing.records
  {
    if dbOk {
      var seeded := Seed.SeedStore(store, id, seededAt, dbOk);
      var listing := CommentsApi.Get(CommentsApi.Rows(seeded), now, localeDate);
      var i :| 0 <= i < |seeded| && IsOwnerPinned(seeded[i].isPinned, seeded[i].name);
      assert IsOwnerPinned(listing.records[i].isPinned, listing.records[i].name);
    }
  }

  /** The body `handleCommentSubmit` sends, or None when its guards stop it. */
  function Payload(p: Panel): (b: Option<CommentsApi.Body>)
    ensures b.None? <==> Trim(p.name) == "" || Trim(p.message) == "" || p.submitting
    ensures b.Some? ==> b.value.name == Some(Trim(p.name)) && b.value.message == Some(Trim(p.message))
    ensures b.Some? ==> b.value.isPinned == Some(false)
    ensures b.Some? ==> b.value.profilePhoto == (if p.photo.Picked? then p.photo.upload else None)
  {
    if Trim(p.name) == "" || Trim(p.message) == "" || p.submitting then None
    else
      var url := match p.photo case NoPhoto => None case Picked(upload) => upload;
      Some(CommentsApi.Body(Some(Trim(p.name)), Some(Trim(p.message)), url, Some(false)))
  }

  /** A post in flight: the body sent, and the comment list the handler captured when it started. */
  datatype InFlight = InFlight(body: CommentsApi.Body, snapshot: seq<Record>)

  /**
   * The synchronous start of `handleCommentSubmit`: the guards, then the busy
   * flag; the body (with the upload's outcome) is fixed here, and so is the
   * list the handler will later prepend to.
   */
  function BeginSubmit(p: Panel): (r: (Panel, Option<InFlight>))
    ensures Payload(p).None? ==> r == (p, None)
    ensures Payload(p).Some? ==> r.0 == p.(submitting := true) && r.1 == Some(InFlight(Payload(p).value, p.comments))
  {
    match Payload(p)
    case None => (p, None)
    case Some(body) => (p.(submitting := true), Some(InFlight(body, p.comments)))
  }

  /**
   * The end of `handleCommentSubmit`, once the post settles (None when
   * `createComment` throws), applied to the panel as it is by then.
   */
  function FinishSubmit(p: Panel, f: InFlight, created: Option<Record>): (r: Panel)
    ensures created.None? ==> r == p.(submitting := false)
    ensures created.Some? ==>
      && r.comments == [created.value] + f.snapshot
      && r.name == "" && r.message == "" && r.photo == NoPhoto && r.preview == None
      && !r.submitting && r.loading == p.loading
  {
    match created
    case None => p.(submitting := false)
    case Some(c) => p.(comments := [c] + f.snapshot, name := "", message := "", photo := NoPhoto, preview := None, submitting := false)
  }

  /** While a post is in flight, a second submit does nothing. */
  lemma SecondSubmitIgnored(p: Panel)
    requires Payload(p).Some?
    ensures var q := BeginSubmit(p).0;
      q.submitting && BeginSubmit(q) == (q, None)
  {
  }

  /** Text typed while the post is pending is cleared by its success, and a list loaded meanwhile is replaced by the captured one. */
  lemma SuccessDiscardsInterimChanges(p: Panel, name: string, message: string, loaded: seq<Record>, c: Record)
    requires Payload(p).Some?
    ensures var q := BeginSubmit(p).0.(name := name, message := message, comments := loaded);
      var r := FinishSubmit(q, BeginSubmit(p).1.value, Some(c));
      r.name == "" && r.message == "" && r.comments == [c] + p.comments
  {
  }

  /** `handleCommentSubmit` with nothing else happening while the post is pending. */
  function SubmitComment(p: Panel, created: Option<Record>): (r: Panel)
    ensures Payload(p).None? ==> r == p
    ensures Payload(p).Some? && created.None? ==> r == p.(submitting := false)
    ensures Payload(p).Some? && created.Some? ==>
      && r.comments == [created.value] + p.comments
      && r.name == "" && r.message == "" && r.photo == NoPhoto && r.preview == None
      && !r.submitting && r.loading == p.loading
  {
    match BeginSubmit(p)
    case (q, None) => q
    case (q, Some(f)) => FinishSubmit(q, f, created)
  }

  /**
   * What the page sends is what the backend accepts: a payload that passed
   * the page's guards is never answered 400, and once stored its name and
   * message are the trimmed inputs and it is not pinned.
   */
  lemma PayloadAccepted(p: Panel, store: seq<Row>, id: string, stamp: int, now: int, localeDate: int -> string)
    requires Payload(p).Some?
    ensures var r := CommentsApi.Post(store, Payload(p).value, id, stamp, now, true, localeDate);
      && r.1.Created?
      && r.1.record.name == Trim(p.name) && r.1.record.message == Trim(p.message)
      && !r.1.record.isPinned
  {
    TrimIdempotent(p.name);
    TrimIdempotent(p.message);
  }

  function IsPinned(c: Record): bool { c.isPinned }
  function IsRegular(c: Record): bool { !c.isPinned }

  /** The number of regular comments always shown. */
  const InitialDisplayCount: nat := 2

  /** The pinned section, in list order. */
  function Pinned(cs: seq<Record>): (r: seq<Record>)
    ensures forall i :: 0 <= i < |r| ==> r[i].isPinned
  {
    Filter(cs, IsPinned)
  }

  /** `comments.filter(c => !c.isPinned)`. */
  function Regular(cs: seq<Record>): (r: seq<Record>)
    ensures forall i :: 0 <= i < |r| ==> !r[i].isPinned
  {
    Filter(cs, IsRegular)
  }

  /** The first two regular comments. */
  function Visible(cs: seq<Record>): seq<Record> {
    var reg := Regular(cs);
    if |reg| <= InitialDisplayCount then reg else reg[..InitialDisplayCount]
  }

  /** The rest of the regular comments, in the scrolling area. */
  function Scrollable(cs: seq<Record>): seq<Record> {
    var reg := Regular(cs);
    if |reg| <= InitialDisplayCount then [] else reg[InitialDisplayCount..]
  }

  /**
   * The panel shows every comment exactly once: pinned ones in their own
   * section, at most two regular ones below them and the rest scrollable,
   * each section keeping the list's order.
   */
  lemma PanelShowsEachOnce(cs: seq<Record>)
    ensures Visible(cs) + Scrollable(cs) == Regular(cs)
    ensures |Visible(cs)| == if |Regular(cs)| < InitialDisplayCount then |Regular(cs)| else InitialDisplayCount
    ensures multiset(Pinned(cs)) + multiset(Visible(cs)) + multiset(Scrollable(cs)) == multiset(cs)
  {
    FilterPartition(cs, IsPinned, IsRegular);
    var reg := Regular(cs);
    if |reg| > InitialDisplayCount {
      assert reg[..InitialDisplayCount] + reg[InitialDisplayCount..] == reg;
    }
  }

  /** The "Admin" label next to a pinned comment. */
  predicate ShowsAdminBadge(c: Record) {
    IsOwnerPinned(c.isPinned, c.name)
  }

  /** An owner comment anywhere in the list lands in the pinned section, where it carries the "Admin" label. */
  lemma {:induction false} OwnerIsPinned(cs: seq<Record>)
    requires HasOwnerComment(cs)
    ensures var ps := Pinned(cs); exists j :: 0 <= j < |ps| && ShowsAdminBadge(ps[j])
    decreases |cs|
  {
    var init := cs[..|cs| - 1];
    var last := cs[|cs| - 1];
    assert Pinned(cs) == if last.isPinned then Pinned(init) + [last] else Pinned(init);
    if IsOwnerPinned(last.isPinned, last.name) {
      assert Pinned(cs)[|Pinned(init)|] == last;
    } else {
      var i :| 0 <= i < |cs| && IsOwnerPinned(cs[i].isPinned, cs[i].name);
      assert init[i] == cs[i];
      OwnerIsPinned(init);
      var j :| 0 <= j < |Pinned(init)| && ShowsAdminBadge(Pinned(init)[j]);
      assert Pinned(cs)[j] == Pinned(init)[j];
    }
  }

  /** A loaded panel always shows the pinned section with an "Admin" label in it. */
  lemma LoadedPanelShowsAdmin(p: Panel, f: Fetch, today: string)
    ensures var ps := Pinned(LoadComments(p, f, today).comments);
      exists j :: 0 <= j < |ps| && ShowsAdminBadge(ps[j])
  {
    OwnerIsPinned(LoadComments(p, f, today).comments);
  }

  /** `c !== ' ' && …`: the characters a hashtag keeps. */
  function NotSpace(c: char): bool { !IsSpace(c) }

  /** `'#' + tech.toLowerCase().replace(/\s+/g, '')`, without the '#'. */
  function Hashtag(tech: string): (r: string)
    ensures NoSpace(r)
    ensures |r| <= |tech|
    ensures Lower(r) == r
  {
    LowerIdempotent(tech);
    LowerOfLowered(Lower(tech));
    Filter(Lower(tech), NotSpace)
  }

  /**
   * A name without white space becomes its lower-cased self. With
   * `HashtagIgnoresSpacing` this fixes the hashtag of every name.
   */
  lemma HashtagOfWord(tech: string)
    requires NoSpace(tech)
    ensures Hashtag(tech) == Lower(tech)
  {
    KeepAll(Lower(tech));
  }

  /** Lower-casing commutes with concatenation. */
  lemma LowerAppend(a: string, b: string)
    ensures Lower(a + b) == Lower(a) + Lower(b)
  {
  }

  /** Spacing inside a technology name does not change its hashtag. */
  lemma HashtagIgnoresSpacing(a: string, gap: string, b: string)
    requires AllSpace(gap)
    ensures Hashtag(a + gap + b) == Hashtag(a + b)
  {
    var la, lg, lb := Lower(a), Lower(gap), Lower(b);
    calc {
      Hashtag(a + gap + b);
      Filter(Lower(a + gap + b), NotSpace);
      { LowerAppend(a + gap, b); LowerAppend(a, gap); }
      Filter(la + lg + lb, NotSpace);
      { FilterAppend(la + lg, lb, NotSpace); FilterAppend(la, lg, NotSpace); }
      Filter(la, NotSpace) + Filter(lg, NotSpace) + Filter(lb, NotSpace);
      { NoneKept(lg); }
      Filter(la, NotSpace) + Filter(lb, NotSpace);
      { FilterAppend(la, lb, NotSpace); LowerAppend(a, b); }
      Hashtag(a + b);
    }
  }

  /** Filtering out white space from white space leaves nothing. */
  lemma {:induction false} NoneKept(s: string)
    requires AllSpace(s)
    ensures Filter(s, NotSpace) == []
    decreases |s|
  {
    if |s| > 0 {
      NoneKept(s[..|s| - 1]);
    }
  }

  /** A hashtag is its own hashtag. */
  lemma {:induction false} HashtagIdempotent(tech: string)
    ensures Hashtag(Hashtag(tech)) == Hashtag(tech)
  {
    var r := Hashtag(tech);
    LowerOfLowered(Lower(tech));
    KeepAll(r);
    assert Lower(r) == r;
  }

  /** Everything `Filter` keeps from a lower-cased string is lower-cased. */
  lemma {:induction false} LowerOfLowered(s: string)
    requires Lower(s) == s
    ensures Lower(Filter(s, NotSpace)) == Filter(s, NotSpace)
    decreases |s|
  {
    if |s| > 0 {
      var init := s[..|s| - 1];
      assert Lower(init) == init;
      LowerOfLowered(init);
      LowerAppend(Filter(init, NotSpace), [s[|s| - 1]]);
    }
  }

  /** Filtering a string with no white space keeps it whole. */
  lemma {:induction false} KeepAll(s: string)
    requires NoSpace(s)
    ensures Filter(s, NotSpace) == s
    decreases |s|
  {
    if |s| > 0 {
      KeepAll(s[..|s| - 1]);
      assert s == s[..|s| - 1] + [s[|s| - 1]];
    }
  }
}
