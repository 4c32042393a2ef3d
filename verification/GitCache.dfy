/**
 The working directory a git source fetches into, and one fetch: compact, open, transfer unless the
 commit is already here, read.
 */
module GitCache {
  import opened Documents
  import opened GitObjects
  import GitPartial
  import opened Wrappers

  /** The directory: this crate's marker, whether it opens as a repository, its objects, its pack files. */
  datatype Disk = Disk(marked: bool, opens: bool, held: set<Id>, packs: nat)

  const EMPTY := Disk(false, false, {}, 0)

  /** `after` is `compact_after`. */
  datatype Config = Config(after: nat, asked: Asked)

  /** `Failure`: a credential the host refused, or anything else; `auth` is the error's own kind. */
  datatype Failure = Refused | Other(auth: bool)

  datatype Removal = Finished | Stopped(left: Disk)

  datatype Credential = Obtained | NotObtained(auth: bool)

  datatype Listing = Advertised(commit: Option<Id>) | ListingFailed(refused: bool)

  datatype Transfer = Received(pack: set<Id>) | TransferFailed(refused: bool, kept: Option<set<Id>>)

  /** What the host, the file system and the credential's owner answer during one fetch. */
  datatype Turn = Turn(
    credential: Credential, directory: bool, removal: Removal,
    initialises: bool, marks: bool, reopens: bool,
    listing: Listing, transfer: Transfer)

  datatype Found = Found(commit: Id, documents: seq<Pair>)

  // ---- One fetch, as a function of the directory and the answers

  predicate Compacts(config: Config, disk: Disk) {
    config.after != 0 && disk.marked && disk.packs > config.after
  }

  datatype Stage<T> = Stage(disk: Disk, result: Result<T, Failure>)

  function Compacted(config: Config, disk: Disk, turn: Turn): (r: Stage<bool>) {
    if !Compacts(config, disk) then Stage(disk, Ok(false))
    else
      match turn.removal
      case Finished => Stage(EMPTY, Ok(true))
      case Stopped(left) => Stage(left, Err(Other(false)))
  }

  function Opened(disk: Disk, turn: Turn): (r: Stage<()>) {
    if disk.opens then Stage(disk, Ok(()))
    else if !turn.initialises then Stage(disk, Err(Other(false)))
    else
      var made := disk.(opens := true);
      if !turn.marks then Stage(made, Err(Other(false)))
      else Stage(made.(marked := true), if turn.reopens then Ok(()) else Err(Other(false)))
  }

  function Failed(refused: bool): (r: Failure) {
    if refused then Refused else Other(false)
  }

  function WithPack(disk: Disk, pack: set<Id>): (r: Disk) {
    disk.(held := disk.held + pack, packs := disk.packs + 1)
  }

  function Fetched(disk: Disk, turn: Turn, want: bool): (r: Stage<Id>) {
    match turn.listing
    case ListingFailed(refused) => Stage(disk, Err(Failed(refused)))
    case Advertised(None) => Stage(disk, Err(Other(false)))
    case Advertised(Some(commit)) =>
      if !want || commit in disk.held then Stage(disk, Ok(commit))
      else
        match turn.transfer
        case Received(pack) => Stage(WithPack(disk, pack), Ok(commit))
        case TransferFailed(refused, kept) =>
          Stage(if kept.Some? then WithPack(disk, kept.value) else disk, Err(Failed(refused)))
  }

  /** The directory as the transfer finds it, or the failure before that. */
  function Prepared(config: Config, disk: Disk, turn: Turn): (r: Stage<()>) {
    if turn.credential.NotObtained? then Stage(disk, Err(Other(turn.credential.auth)))
    else if !turn.directory then Stage(disk, Err(Other(false)))
    else
      var compacted := Compacted(config, disk, turn);
      if compacted.result.Err? then Stage(compacted.disk, Err(compacted.result.error))
      else Opened(compacted.disk, turn)
  }

  function Transferred(config: Config, disk: Disk, turn: Turn, want: bool): (r: Stage<Id>) {
    var prepared := Prepared(config, disk, turn);
    if prepared.result.Err? then Stage(prepared.disk, Err(prepared.result.error))
    else Fetched(prepared.disk, turn, want)
  }

  function Once(u: Universe, config: Config, disk: Disk, turn: Turn, want: bool): (r: Stage<Found>) {
    var fetched := Transferred(config, disk, turn, want);
    if fetched.result.Err? then Stage(fetched.disk, Err(fetched.result.error))
    else
      var commit := fetched.result.value;
      if !want then Stage(fetched.disk, Ok(Found(commit, [])))
      else
        match DocumentsAt(u, Holding(fetched.disk.held), config.asked, commit)
        case None => Stage(fetched.disk, Err(Other(false)))
        case Some(documents) => Stage(fetched.disk, Ok(Found(commit, documents)))
  }

  // ---- The directory as an object each step changes in place

  class Directory {
    var marked: bool
    var opens: bool
    var held: set<Id>
    var packs: nat

    function Contents(): (r: Disk)
      reads this
    {
      Disk(marked, opens, held, packs)
    }

    constructor (disk: Disk)
      ensures Contents() == disk
    {
      marked, opens, held, packs := disk.marked, disk.opens, disk.held, disk.packs;
    }

    method Become(disk: Disk)
      modifies this
      ensures Contents() == disk
    {
      marked, opens, held, packs := disk.marked, disk.opens, disk.held, disk.packs;
    }

    /** `working::compact`. */
    method Compact(config: Config, turn: Turn) returns (removed: Result<bool, Failure>)
      modifies this
      ensures Stage(Contents(), removed) == Compacted(config, old(Contents()), turn)
    {
      if config.after == 0 || !marked || packs <= config.after {
        return Ok(false);
      }
      match turn.removal {
        case Stopped(left) =>
          Become(left);
          removed := Err(Other(false));
        case Finished =>
          Become(EMPTY);
          removed := Ok(true);
      }
    }

    /** `fetch::open`. */
    method Open(turn: Turn) returns (ready: Result<(), Failure>)
      modifies this
      ensures Stage(Contents(), ready) == Opened(old(Contents()), turn)
    {
      if opens {
        return Ok(());
      }
      if !turn.initialises {
        return Err(Other(false));
      }
      opens := true;
      if !turn.marks {
        return Err(Other(false));
      }
      marked := true;
      if !turn.reopens {
        return Err(Other(false));
      }
      ready := Ok(());
    }

    /** `fetch::negotiate`. */
    method Fetch(turn: Turn, want: bool) returns (commit: Result<Id, Failure>)
      modifies this
      ensures Stage(Contents(), commit) == Fetched(old(Contents()), turn, want)
    {
      match turn.listing {
        case ListingFailed(refused) => return Err(Failed(refused));
        case Advertised(None) => return Err(Other(false));
        case Advertised(Some(tip)) =>
          if !want || tip in held {
            return Ok(tip);
          }
          match turn.transfer {
            case Received(pack) =>
              held, packs := held + pack, packs + 1;
              commit := Ok(tip);
            case TransferFailed(refused, kept) =>
              if kept.Some? {
                held, packs := held + kept.value, packs + 1;
              }
              commit := Err(Failed(refused));
          }
      }
    }

    /** `GitSource::once`. */
    method FetchOnce(u: Universe, config: Config, turn: Turn, want: bool) returns (found: Result<Found, Failure>)
      modifies this
      ensures Stage(Contents(), found) == Once(u, config, old(Contents()), turn, want)
    {
      if turn.credential.NotObtained? {
        return Err(Other(turn.credential.auth));
      }
      if !turn.directory {
        return Err(Other(false));
      }
      var removed := Compact(config, turn);
      if removed.Err? {
        return Err(removed.error);
      }
      var ready := Open(turn);
      if ready.Err? {
        return Err(ready.error);
      }
      var commit := Fetch(turn, want);
      if commit.Err? {
        return Err(commit.error);
      }
      if !want {
        return Ok(Found(commit.value, []));
      }
      var documents := ReadCommit(u, held, config.asked, commit.value);
      found := if documents.Some? then Ok(Found(commit.value, documents.value)) else Err(Other(false));
    }
  }

  // ---- What a fetch comes to

  /** This crate's own directory, over a bound that is set. */
  predicate IsOverBound(config: Config, disk: Disk) {
    config.after > 0 && disk.marked && config.after < disk.packs
  }

  /** What is still held when the host is asked: nothing of a directory that was over its bound. */
  function Kept(config: Config, disk: Disk): (r: set<Id>) {
    if IsOverBound(config, disk) then {} else disk.held
  }

  /**
   The host is asked at all: there is a credential and a directory, a compaction that was due was
   finished, and a repository that was not there, or no longer, was made, marked and opened.
   */
  predicate GetsToAsk(config: Config, disk: Disk, turn: Turn) {
    && turn.credential.Obtained? && turn.directory
    && (IsOverBound(config, disk) ==> turn.removal.Finished?)
    && (IsOverBound(config, disk) || !disk.opens ==> turn.initialises && turn.marks && turn.reopens)
  }

  predicate Names(turn: Turn, commit: Id) {
    turn.listing == Advertised(Some(commit))
  }

  /** Somewhere the host refused the credential: at the listing, or at a transfer it was asked for. */
  predicate IsTurnedDown(config: Config, disk: Disk, turn: Turn, want: bool) {
    || turn.listing == ListingFailed(true)
    || (&& want && turn.listing.Advertised? && turn.listing.commit.Some?
        && turn.listing.commit.value !in Kept(config, disk)
        && turn.transfer.TransferFailed? && turn.transfer.refused)
  }

  /** The objects there are to read the named commit from, if it was here or a transfer brought it. */
  function ReadFrom(config: Config, disk: Disk, turn: Turn, commit: Id): (r: Option<set<Id>>) {
    if commit in Kept(config, disk) then Some(Kept(config, disk))
    else if turn.transfer.Received? then Some(Kept(config, disk) + turn.transfer.pack)
    else None
  }

  /**
   One fetch, from end to end. A check answers with the commit the host names and no documents, and a
   read with the commit and all that was asked for in it, if and only if everything on the way to it
   went well; the credential is what failed exactly when the host said so; and a failure is the
   credential's owner's exactly when the owner said that.
   */
  lemma FetchOutcomeIff(u: Universe, config: Config, disk: Disk, turn: Turn, want: bool, commit: Id,
                        documents: seq<Pair>)
    ensures var result := Once(u, config, disk, turn, want).result;
            && (result == Ok(Found(commit, documents)) <==>
                  && GetsToAsk(config, disk, turn) && Names(turn, commit)
                  && if want
                     then ReadFrom(config, disk, turn, commit).Some?
                          && HoldsIn(u, Holding(ReadFrom(config, disk, turn, commit).value), config.asked, commit,
                                     documents)
                     else documents == [])
            && (result == Err(Refused) <==>
                  GetsToAsk(config, disk, turn) && IsTurnedDown(config, disk, turn, want))
            && (result == Err(Other(true)) <==> turn.credential == NotObtained(true))
  {
    TransferredIff(config, disk, turn, want);
    var fetched := Transferred(config, disk, turn, want);
    if fetched.result.Ok? && want {
      DocumentsIff(u, Holding(fetched.disk.held), config.asked, fetched.result.value);
    }
  }

  lemma PreparedIff(config: Config, disk: Disk, turn: Turn)
    ensures var prepared := Prepared(config, disk, turn);
            && (prepared.result.Ok? <==> GetsToAsk(config, disk, turn))
            && (prepared.result.Ok? ==> prepared.disk.held == Kept(config, disk))
            && prepared.result != Err(Refused)
            && (prepared.result == Err(Other(true)) <==> turn.credential == NotObtained(true))
  {
  }

  /** The directory and the host: the commit that is there to be read, or what went wrong. */
  lemma TransferredIff(config: Config, disk: Disk, turn: Turn, want: bool)
    ensures var fetched := Transferred(config, disk, turn, want);
            && (fetched.result.Ok? <==>
                  && GetsToAsk(config, disk, turn) && turn.listing.Advertised? && turn.listing.commit.Some?
                  && (want ==> ReadFrom(config, disk, turn, turn.listing.commit.value).Some?))
            && (fetched.result.Ok? ==>
                  && Names(turn, fetched.result.value)
                  && (want ==> Some(fetched.disk.held) == ReadFrom(config, disk, turn, fetched.result.value)))
            && (fetched.result == Err(Refused) <==>
                  GetsToAsk(config, disk, turn) && IsTurnedDown(config, disk, turn, want))
            && (fetched.result == Err(Other(true)) <==> turn.credential == NotObtained(true))
  {
    PreparedIff(config, disk, turn);
  }

  // ---- What is assumed of the answers

  /**
   A pack is complete for the commit it was asked for: with what was already held, it brings the
   whole of it, and no other commit that it does not bring the whole of.
   */
  ghost predicate HonestPack(u: Universe, held: set<Id>, pack: set<Id>, commit: Id) {
    && Complete(u, Holding(held + pack), commit)
    && forall id :: id in pack && IsRoot(u(id)) ==> Complete(u, Holding(held + pack), id)
  }

  ghost predicate HonestTransfer(u: Universe, disk: Disk, turn: Turn) {
    turn.listing.Advertised? && turn.listing.commit.Some? ==>
      && IsRoot(u(turn.listing.commit.value))
      && (turn.transfer.Received? ==> HonestPack(u, disk.held, turn.transfer.pack, turn.listing.commit.value))
      && (turn.transfer.TransferFailed? && turn.transfer.kept.Some? ==>
            HonestPack(u, disk.held, turn.transfer.kept.value, turn.listing.commit.value))
  }

  /** A removal that stopped took things away and added nothing. */
  predicate PartOf(left: Disk, disk: Disk) {
    && (left.marked ==> disk.marked) && (left.opens ==> disk.opens)
    && left.held <= disk.held && left.packs <= disk.packs
  }

  ghost predicate Honest(u: Universe, config: Config, disk: Disk, turn: Turn) {
    && (turn.removal.Stopped? ==> PartOf(turn.removal.left, disk))
    && HonestTransfer(u, Prepared(config, disk, turn).disk, turn)
  }

  // ---- What every fetch keeps

  lemma PackKeepsClosed(u: Universe, held: set<Id>, pack: set<Id>, commit: Id)
    requires Closed(u, held) && HonestPack(u, held, pack, commit)
    ensures Closed(u, held + pack)
  {
    forall id | id in held + pack && IsRoot(u(id))
      ensures Complete(u, Holding(held + pack), id)
    {
      if id in held {
        MoreKeepsComplete(u, held, held + pack, id);
      }
    }
  }

  /** A removal this turn started and could not finish. */
  predicate StopsHalfway(config: Config, disk: Disk, turn: Turn) {
    turn.credential.Obtained? && turn.directory && Compacts(config, disk) && turn.removal.Stopped?
  }

  /** A fetch, whatever fails in it, leaves the database closed, unless a compaction stopped badly. */
  lemma KeepsClosed(u: Universe, config: Config, disk: Disk, turn: Turn, want: bool)
    requires Closed(u, disk.held) && Honest(u, config, disk, turn)
    requires StopsHalfway(config, disk, turn) ==> Closed(u, turn.removal.left.held)
    ensures Closed(u, Once(u, config, disk, turn, want).disk.held)
  {
    var prepared := Prepared(config, disk, turn);
    assert Once(u, config, disk, turn, want).disk == Transferred(config, disk, turn, want).disk;
    if StopsHalfway(config, disk, turn) {
      assert prepared == Stage(turn.removal.left, Err(Other(false)));
    } else {
      assert prepared.disk.held == disk.held || prepared.disk.held == {};
      assert Closed(u, prepared.disk.held);
      FetchedStaysClosed(u, prepared.disk, turn, want);
    }
  }

  lemma FetchedStaysClosed(u: Universe, disk: Disk, turn: Turn, want: bool)
    requires Closed(u, disk.held) && HonestTransfer(u, disk, turn)
    ensures Closed(u, Fetched(disk, turn, want).disk.held)
  {
    if turn.listing.Advertised? && turn.listing.commit.Some? {
      var commit := turn.listing.commit.value;
      match turn.transfer {
        case Received(pack) => PackKeepsClosed(u, disk.held, pack, commit);
        case TransferFailed(_, Some(pack)) => PackKeepsClosed(u, disk.held, pack, commit);
        case TransferFailed(_, None) =>
      }
    }
  }

  /**
   What a fetch reads is what a fresh transfer of the commit would have read, whatever state the
   cache was in, whatever the host sent and whatever a removal left: a cache can only fail to answer.
   One that is closed answers whenever a fresh transfer would, so there skipping the transfer makes
   no difference at all.
   */
  lemma ReadsFresh(u: Universe, config: Config, disk: Disk, turn: Turn)
    ensures var once := Once(u, config, disk, turn, true).result;
            once.Ok? ==> Holds(u, config.asked, once.value.commit, once.value.documents)
    ensures var once, transferred := Once(u, config, disk, turn, true).result,
                                     Transferred(config, disk, turn, true).result;
            Closed(u, disk.held) && Honest(u, config, disk, turn) && transferred.Ok? ==>
              && (once.Ok? <==> CanRead(u, EVERYTHING, config.asked, transferred.value))
              && (once.Ok? ==> once.value.commit == transferred.value)
              && (once.Err? ==> once.error == Other(false))
  {
    var transferred := Transferred(config, disk, turn, true);
    if transferred.result.Ok? {
      var commit := transferred.result.value;
      var has := Holding(transferred.disk.held);
      var documents := DocumentsAt(u, has, config.asked, commit);
      DocumentsIff(u, has, config.asked, commit);
      if documents.Some? {
        GitPartial.AnswersOnlyFresh(u, has, config.asked, commit, documents.value);
      }
      if Closed(u, disk.held) && Honest(u, config, disk, turn) {
        TransferIsComplete(u, config, disk, turn);
        CompleteReadsFresh(u, transferred.disk.held, config.asked, commit);
        DocumentsIff(u, EVERYTHING, config.asked, commit);
      }
    }
  }

  /** A closed cache has all of the commit it is about to read. */
  lemma TransferIsComplete(u: Universe, config: Config, disk: Disk, turn: Turn)
    requires Closed(u, disk.held) && Honest(u, config, disk, turn)
    requires Transferred(config, disk, turn, true).result.Ok?
    ensures var transferred := Transferred(config, disk, turn, true);
            Complete(u, Holding(transferred.disk.held), transferred.result.value)
  {
    var at := Prepared(config, disk, turn).disk.held;
    var held := Transferred(config, disk, turn, true).disk.held;
    assert Closed(u, at);
    if turn.listing.commit.value in at {
      assert held == at;
    } else {
      assert held == at + turn.transfer.pack;
    }
  }

  // ---- Which fetches cannot break the cache

  predicate HoldsCommit(u: Universe, held: set<Id>) {
    exists id :: id in held && IsRoot(u(id))
  }

  /** A fetch in which compaction, if it starts, stops at `left`, and in which nothing else is asked. */
  function Stopping(left: Disk): (r: Turn) {
    Turn(Obtained, true, Stopped(left), true, true, true, ListingFailed(false), TransferFailed(false, None))
  }

  lemma CommitAloneIsNotClosed(u: Universe, id: Id)
    requires IsRoot(u(id))
    ensures !Closed(u, {id})
  {
    var has := Holding({id});
    var parts := u(id).parts;
    assert parts.Commit? ==> parts.tree < id && !Complete(u, has, parts.tree);
    assert parts.Tag? ==> parts.target < id && !Complete(u, has, parts.target);
    assert !Complete(u, has, id);
  }

  /** A compaction about to start with a commit in the cache can stop with nothing but that commit left. */
  lemma StoppingBreaks(u: Universe, config: Config, disk: Disk, id: Id, want: bool)
    requires Compacts(config, disk) && id in disk.held && IsRoot(u(id))
    ensures var turn := Stopping(Disk(true, disk.opens, {id}, disk.packs));
            && Honest(u, config, disk, turn)
            && Once(u, config, disk, turn, want).disk == turn.removal.left
            && !Closed(u, Once(u, config, disk, turn, want).disk.held)
  {
    CommitAloneIsNotClosed(u, id);
  }

  /** Without a commit, nothing that is left can be a commit without its tree. */
  lemma NoCommitIsClosed(u: Universe, less: set<Id>, more: set<Id>)
    requires less <= more && !HoldsCommit(u, more)
    ensures Closed(u, less)
  {
  }

  /**
   When a fetch can be trusted with the cache: whatever fails in it, it leaves no commit without its
   tree, if and only if it is not about to compact a cache with a commit in it.
   */
  lemma StaysClosedIff(u: Universe, config: Config, disk: Disk, want: bool)
    requires Closed(u, disk.held)
    ensures (forall turn: Turn ::
               Honest(u, config, disk, turn) ==> Closed(u, Once(u, config, disk, turn, want).disk.held))
            <==> !(Compacts(config, disk) && HoldsCommit(u, disk.held))
  {
    if Compacts(config, disk) && HoldsCommit(u, disk.held) {
      var id :| id in disk.held && IsRoot(u(id));
      StoppingBreaks(u, config, disk, id, want);
    } else {
      forall turn: Turn | Honest(u, config, disk, turn)
        ensures Closed(u, Once(u, config, disk, turn, want).disk.held)
      {
        if StopsHalfway(config, disk, turn) {
          NoCommitIsClosed(u, turn.removal.left.held, disk.held);
        }
        KeepsClosed(u, config, disk, turn, want);
      }
    }
  }

  // ---- Who may be emptied, and when

  /** A watch's idle tick empties the cache whenever a read would: only the bound and the marker decide. */
  lemma IdleTickCompacts(u: Universe, config: Config, disk: Disk, turn: Turn)
    requires Once(u, config, disk, turn, false).result.Ok?
    ensures Compacts(config, disk) <==> Once(u, config, disk, turn, false).disk.packs < disk.packs
    ensures Compacts(config, disk) ==> Once(u, config, disk, turn, false).disk == Disk(true, true, {}, 0)
    ensures !Compacts(config, disk) ==> Once(u, config, disk, turn, false).disk.held == disk.held
  {
  }

  /** How a directory this crate may empty, or has nothing in yet, stops being one. */
  lemma LosesMarkIff(u: Universe, config: Config, disk: Disk, turn: Turn, want: bool)
    requires disk.opens ==> disk.marked
    ensures var after := Once(u, config, disk, turn, want).disk;
            (after.opens && !after.marked) <==>
              && turn.credential.Obtained? && turn.directory
              && if Compacts(config, disk) && turn.removal.Stopped?
                 then turn.removal.left.opens && !turn.removal.left.marked
                 else !turn.marks && turn.initialises
                      && (Compacts(config, disk) || (!disk.opens && !disk.marked))
  {
    var prepared := Prepared(config, disk, turn).disk;
    var after := Once(u, config, disk, turn, want).disk;
    assert after.opens == prepared.opens && after.marked == prepared.marked;
  }

  /** A fetch that has to make a repository and cannot write its marker. */
  const UNMARKING := Turn(Obtained, true, Finished, true, false, true, ListingFailed(false),
                          TransferFailed(false, None))

  /**
   When a directory of this crate's is sure to stay one: whatever fails in the fetch, no repository
   is left without its marker, if and only if there is one already, or its marker, and it is not
   about to be compacted.
   */
  lemma StaysOursIff(u: Universe, config: Config, disk: Disk, want: bool)
    requires disk.opens ==> disk.marked
    ensures (forall turn: Turn :: Honest(u, config, disk, turn) ==>
               var after := Once(u, config, disk, turn, want).disk; after.opens ==> after.marked)
            <==> !Compacts(config, disk) && (disk.opens || disk.marked)
  {
    if !Compacts(config, disk) && (disk.opens || disk.marked) {
      forall turn: Turn | Honest(u, config, disk, turn)
        ensures var after := Once(u, config, disk, turn, want).disk; after.opens ==> after.marked
      {
        LosesMarkIff(u, config, disk, turn, want);
      }
    } else {
      LosesMarkIff(u, config, disk, UNMARKING, want);
      assert Honest(u, config, disk, UNMARKING);
    }
  }

  /** Nothing is ever taken from a repository this crate did not mark, and it is never marked later. */
  lemma UnmarkedIsNeverEmptied(u: Universe, config: Config, disk: Disk, turn: Turn, want: bool)
    requires !disk.marked
    ensures var after := Once(u, config, disk, turn, want).disk;
            && disk.held <= after.held && disk.packs <= after.packs <= disk.packs + 1
            && (disk.opens ==> after.opens && !after.marked)
  {
  }

  /** A marked directory ends every fetch that answered with at most one pack over the bound. */
  lemma MarkedIsBounded(u: Universe, config: Config, disk: Disk, turn: Turn, want: bool)
    requires disk.marked && config.after > 0
    requires Once(u, config, disk, turn, want).result.Ok?
    ensures Once(u, config, disk, turn, want).disk.packs <= config.after + 1
  {
  }

  /** One pack for each transfer, whatever else happens: none for a commit already held. */
  lemma OnePackPerTransfer(u: Universe, config: Config, disk: Disk, turn: Turn, want: bool)
    requires Once(u, config, disk, turn, want).result.Ok?
    ensures var commit := Once(u, config, disk, turn, want).result.value.commit;
            var before := if Compacts(config, disk) then EMPTY else disk;
            var after := Once(u, config, disk, turn, want).disk;
            && (want && commit !in before.held ==> after.packs == before.packs + 1)
            && (!want || commit in before.held ==> after.packs == before.packs && after.held == before.held)
  {
  }

  // ---- A directory this crate made, over every run

  datatype Fetch = Fetch(turn: Turn, want: bool)

  function After(u: Universe, config: Config, start: Disk, fetches: seq<Fetch>): (r: Disk) {
    if fetches == [] then start
    else
      var last := fetches[|fetches| - 1];
      Once(u, config, After(u, config, start, fetches[..|fetches| - 1]), last.turn, last.want).disk
  }

  /** The answers to a run, each honest about the directory as it found it. */
  ghost predicate HonestRun(u: Universe, config: Config, start: Disk, fetches: seq<Fetch>) {
    fetches == [] ||
    var n := |fetches| - 1;
    && HonestRun(u, config, start, fetches[..n])
    && Honest(u, config, After(u, config, start, fetches[..n]), fetches[n].turn)
  }

  /** Every removal that was started was finished. */
  predicate NeverStops(config: Config, fetches: seq<Fetch>) {
    forall i :: 0 <= i < |fetches| ==> fetches[i].turn.removal.Finished?
  }

  /** Whenever a repository was initialised its marker was written. */
  predicate AlwaysMarks(fetches: seq<Fetch>) {
    forall i :: 0 <= i < |fetches| ==> fetches[i].turn.marks
  }

  /**
   A run that lost neither the marker nor part of a repository: after every fetch there is nothing in
   the directory or a marked repository, and what a removal leaves it had found there.
   */
  predicate KeepsMark(u: Universe, config: Config, fetches: seq<Fetch>) {
    fetches == [] ||
    var n := |fetches| - 1;
    && KeepsMark(u, config, fetches[..n])
    && (fetches[n].turn.removal.Stopped? ==>
          PartOf(fetches[n].turn.removal.left, After(u, config, EMPTY, fetches[..n])))
    && IsOurs(After(u, config, EMPTY, fetches))
  }

  predicate IsOurs(disk: Disk) {
    disk == EMPTY || (disk.opens && disk.marked)
  }

  /** A directory that started empty stays bounded for as long as no fetch loses its marker. */
  lemma {:induction false} OwnDirectoryIsBounded(u: Universe, config: Config, fetches: seq<Fetch>)
    requires config.after > 0 && KeepsMark(u, config, fetches)
    ensures var disk := After(u, config, EMPTY, fetches); IsOurs(disk) && disk.packs <= config.after + 1
  {
    if fetches != [] {
      var before, last := fetches[..|fetches| - 1], fetches[|fetches| - 1];
      OwnDirectoryIsBounded(u, config, before);
      StaysBounded(u, config, After(u, config, EMPTY, before), last.turn, last.want);
    }
  }

  lemma StaysBounded(u: Universe, config: Config, disk: Disk, turn: Turn, want: bool)
    requires config.after > 0 && IsOurs(disk) && disk.packs <= config.after + 1
    requires turn.removal.Stopped? ==> PartOf(turn.removal.left, disk)
    requires IsOurs(Once(u, config, disk, turn, want).disk)
    ensures Once(u, config, disk, turn, want).disk.packs <= config.after + 1
  {
    var prepared := Prepared(config, disk, turn);
    assert Once(u, config, disk, turn, want).disk == Transferred(config, disk, turn, want).disk;
    assert prepared.result.Ok? ==> prepared.disk.packs <= config.after;
    assert prepared.disk.packs <= config.after + 1;
  }

  /** Where no removal stops and every marker can be written, none is lost. */
  lemma {:induction false} NothingLost(u: Universe, config: Config, fetches: seq<Fetch>)
    requires NeverStops(config, fetches) && AlwaysMarks(fetches)
    ensures KeepsMark(u, config, fetches) && IsOurs(After(u, config, EMPTY, fetches))
  {
    if fetches != [] {
      var before, last := fetches[..|fetches| - 1], fetches[|fetches| - 1];
      NothingLost(u, config, before);
      var disk := After(u, config, EMPTY, before);
      assert Once(u, config, disk, last.turn, last.want).disk == Transferred(config, disk, last.turn, last.want).disk;
      assert IsOurs(Prepared(config, disk, last.turn).disk);
    }
  }

  /** A repository without a marker only grows, for ever: every transfer adds its pack and none is removed. */
  lemma {:induction false} UnmarkedOnlyGrows(u: Universe, config: Config, start: Disk, fetches: seq<Fetch>)
    requires start.opens && !start.marked
    ensures var disk := After(u, config, start, fetches);
            && disk.opens && !disk.marked && start.held <= disk.held
            && disk.packs == start.packs + PacksAdded(u, config, start, fetches)
  {
    if fetches != [] {
      var before, last := fetches[..|fetches| - 1], fetches[|fetches| - 1];
      UnmarkedOnlyGrows(u, config, start, before);
      UnmarkedGrows(u, config, After(u, config, start, before), last);
    }
  }

  lemma UnmarkedGrows(u: Universe, config: Config, disk: Disk, fetch: Fetch)
    requires disk.opens && !disk.marked
    ensures var after := Once(u, config, disk, fetch.turn, fetch.want).disk;
            && after.opens && !after.marked && disk.held <= after.held
            && after.packs == disk.packs + (if LeavesPack(config, disk, fetch) then 1 else 0)
  {
    var prepared := Prepared(config, disk, fetch.turn);
    assert prepared.disk == disk;
    assert Once(u, config, disk, fetch.turn, fetch.want).disk == Transferred(config, disk, fetch.turn, fetch.want).disk;
  }

  /** The transfers of a run that left a pack behind. */
  function PacksAdded(u: Universe, config: Config, start: Disk, fetches: seq<Fetch>): (r: nat) {
    if fetches == [] then 0
    else
      var before, last := fetches[..|fetches| - 1], fetches[|fetches| - 1];
      PacksAdded(u, config, start, before)
      + (if LeavesPack(config, After(u, config, start, before), last) then 1 else 0)
  }

  predicate LeavesPack(config: Config, disk: Disk, fetch: Fetch) {
    var prepared := Prepared(config, disk, fetch.turn);
    && prepared.result.Ok? && fetch.want
    && fetch.turn.listing.Advertised? && fetch.turn.listing.commit.Some?
    && fetch.turn.listing.commit.value !in prepared.disk.held
    && (fetch.turn.transfer.Received? || fetch.turn.transfer.kept.Some?)
  }
}
