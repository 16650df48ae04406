/** The shared scratch directory: a listing of file names with their
    modification time and size, its age-based purge, the choice of the
    newest `.mp4` and the attachment size limit. */
module ScratchDir {
  import opened Wrappers
  import opened Config

  /** What `stat()` yields that the bot reads: whole-second mtime and size in bytes. */
  datatype FileStat = FileStat(mtime: int, size: nat)

  type Listing = map<string, FileStat>

  /** Retention window, in seconds. */
  const RetentionSeconds: int := 3600

  /** A file is purged when it is strictly older than the retention window. */
  predicate IsStale(st: FileStat, now: int) {
    now - st.mtime > RetentionSeconds
  }

  /** The listing left by a purge at time `now`. */
  function Purged(files: Listing, now: int): Listing {
    map f | f in files && !IsStale(files[f], now) :: files[f]
  }

  /** A purge removes exactly the stale entries, whatever their name, and
      leaves every other entry as it was. */
  lemma PurgeRemovesExactlyStale(files: Listing, now: int, f: string)
    requires f in files
    ensures f !in Purged(files, now) <==> now - files[f].mtime > 3600
    ensures f in Purged(files, now) ==> Purged(files, now)[f] == files[f]
  {
  }

  /** A second purge at the same time changes nothing. */
  lemma PurgeIdempotent(files: Listing, now: int)
    ensures Purged(Purged(files, now), now) == Purged(files, now)
  {
  }

  /** A later purge keeps no more than an earlier one. */
  lemma PurgeLaterKeepsLess(files: Listing, now1: int, now2: int)
    requires now1 <= now2
    ensures Purged(files, now2).Keys <= Purged(files, now1).Keys
  {
  }

  /** `glob("*.mp4")`: the name ends in `.mp4`. */
  predicate IsMp4(name: string) {
    |name| >= 4 && name[|name| - 4..] == ".mp4"
  }

  predicate HasMp4(files: Listing) {
    exists g :: g in files && IsMp4(g)
  }

  /** `name` is an `.mp4` of the listing modified no earlier than any other. */
  predicate IsNewestMp4(files: Listing, name: string) {
    name in files && IsMp4(name)
    && forall g :: g in files && IsMp4(g) ==> files[g].mtime <= files[name].mtime
  }

  /** `sorted(glob("*.mp4"), key=mtime, reverse=True)[0]`: a newest `.mp4`,
      or `None` where Python's `[0]` raises `IndexError`. */
  method NewestMp4(files: Listing) returns (r: Option<string>)
    ensures r.None? <==> !HasMp4(files)
    ensures r.Some? ==> IsNewestMp4(files, r.value)
  {
    r := None;
    var pending := files.Keys;
    while pending != {}
      invariant pending <= files.Keys
      invariant r.None? ==> forall g :: g in files && g !in pending ==> !IsMp4(g)
      invariant r.Some? ==> r.value in files && IsMp4(r.value)
      invariant r.Some? ==> forall g :: g in files && g !in pending && IsMp4(g) ==> files[g].mtime <= files[r.value].mtime
      decreases |pending|
    {
      var f :| f in pending;
      if IsMp4(f) && (r.None? || files[f].mtime > files[r.value].mtime) {
        r := Some(f);
      }
      pending := pending - {f};
    }
  }

  /** Any two newest `.mp4` files carry the same modification time: the
      choice among them is the only freedom the selection has. */
  lemma NewestMp4Unique(files: Listing, a: string, b: string)
    requires IsNewestMp4(files, a) && IsNewestMp4(files, b)
    ensures files[a].mtime == files[b].mtime
  {
  }

  /** `st_size / (1024 * 1024)`; a power-of-two divisor keeps the float exact. */
  function SizeMb(bytes: nat): real {
    bytes as real / 1048576.0
  }

  /** `size_mb <= TELEGRAM_LIMIT_MB`. */
  predicate FitsTelegram(bytes: nat) {
    SizeMb(bytes) <= TelegramLimitMb as real
  }

  /** The megabyte comparison is the byte comparison against 50 MiB. */
  lemma FitsTelegramIffBytes(bytes: nat)
    ensures FitsTelegram(bytes) <==> bytes <= 50 * 1024 * 1024
  {
  }

  /** The scratch directory as the bot process sees it. */
  class Directory {
    var files: Listing

    constructor(initial: Listing)
      ensures files == initial
    {
      files := initial;
    }

    /** `clean_files()`: visit every entry and unlink the stale ones. */
    method CleanFiles(now: int)
      modifies this
      ensures files == Purged(old(files), now)
    {
      var pending := files.Keys;
      while pending != {}
        invariant pending <= old(files).Keys
        invariant files.Keys <= old(files).Keys
        invariant forall f :: f in files ==> files[f] == old(files)[f]
        invariant forall f :: f in pending ==> f in files
        invariant forall f :: f in old(files) && f !in pending ==> (f in files <==> !IsStale(old(files)[f], now))
        decreases |pending|
      {
        var f :| f in pending;
        if IsStale(files[f], now) {
          Unlink(f);
        }
        pending := pending - {f};
      }
      assert files.Keys == Purged(old(files), now).Keys;
    }

    /** `unlink(missing_ok=True)`: the entry is gone, present or not. */
    method Unlink(name: string)
      modifies this
      ensures files == old(files) - {name}
    {
      files := files - {name};
    }
  }
}
