/** The admin backup listing (src/app/actions/server/admin/backups/primary.ts):
 *  only database dumps are listed, newest first, and only for an admin.
 *  The object store is outside the model: what its listing returns is an
 *  input, and so is the signer that makes download links. */
module Backups {
  import opened Wrappers
  import Text
  import Lists
  import Sorting

  /** An entry of the store's listing; the key may be absent. */
  datatype StoredObject = StoredObject(key: Option<string>, lastModified: int, size: int)

  datatype Backup = Backup(key: string, lastModified: int, size: int)

  const DumpSuffix := ".sql.gz"
  const ListFailure := "Failed to list backup files"
  const UrlFailure := "Failed to generate download URL"
  /** Lifetime of a download link, in seconds. */
  const LinkLifetime := 3600

  /** The entry as a backup, when its key names a compressed SQL dump. */
  function AsBackup(o: StoredObject): (r: Option<Backup>)
    ensures r.Some? <==> o.key.Some? && Text.EndsWith(o.key.value, DumpSuffix)
    ensures r.Some? ==> r.value == Backup(o.key.value, o.lastModified, o.size)
  {
    if o.key.Some? && Text.EndsWith(o.key.value, DumpSuffix) then Some(Backup(o.key.value, o.lastModified, o.size))
    else None
  }

  /** `b.lastModified - a.lastModified`: newest first. */
  function NewestFirst(): (Backup, Backup) -> int
  {
    (a: Backup, b: Backup) => b.lastModified - a.lastModified
  }

  /** `srv_listBackups`: a caller who is not an admin gets the generic
   *  failure, since the thrown error is caught, and so does an admin when
   *  the store's listing (or a log write) throws (`storeThrew`); otherwise
   *  the dumps among the listed entries, newest first, and none when the
   *  listing has no contents. `prefix` only reaches the log and `maxFiles`
   *  only the store's request. */
  function ListBackups(isAdmin: bool, prefix: string, maxFiles: int, storeThrew: bool,
                       contents: Option<seq<StoredObject>>): (r: Result<seq<Backup>, string>)
    ensures r.Err? <==> !isAdmin || storeThrew
    ensures r.Err? ==> r.error == ListFailure
    ensures r.Ok? && contents.None? ==> r.value == []
    ensures r.Ok? && contents.Some? ==> |r.value| <= |contents.value|
  {
    if !isAdmin || storeThrew then Err(ListFailure)
    else if contents.None? then Ok([])
    else Ok(Sorting.SortBy(Lists.FilterMap(contents.value, AsBackup), NewestFirst()))
  }

  /** The listing holds exactly the dump entries: each listed backup is a
   *  stored entry whose key ends in ".sql.gz", each such entry is listed,
   *  and the list runs from newest to oldest. */
  lemma ListedAreDumps(prefix: string, maxFiles: int, contents: seq<StoredObject>)
    ensures var r := ListBackups(true, prefix, maxFiles, false, Some(contents)).value;
      (forall b :: b in r ==>
        Text.EndsWith(b.key, DumpSuffix) &&
        exists j :: 0 <= j < |contents| && contents[j] == StoredObject(Some(b.key), b.lastModified, b.size)) &&
      (forall j :: 0 <= j < |contents| && contents[j].key.Some? && Text.EndsWith(contents[j].key.value, DumpSuffix) ==>
        Backup(contents[j].key.value, contents[j].lastModified, contents[j].size) in r) &&
      (forall i, j :: 0 <= i < j < |r| ==> r[i].lastModified >= r[j].lastModified)
  {
    var r := ListBackups(true, prefix, maxFiles, false, Some(contents)).value;
    assert r == Sorting.SortBy(Lists.FilterMap(contents, AsBackup), NewestFirst());
    forall b | b in r
      ensures Text.EndsWith(b.key, DumpSuffix) &&
        exists j :: 0 <= j < |contents| && contents[j] == StoredObject(Some(b.key), b.lastModified, b.size)
    {
      var j := ListedIsStored(contents, b);
    }
    forall j | 0 <= j < |contents| && contents[j].key.Some? && Text.EndsWith(contents[j].key.value, DumpSuffix)
      ensures Backup(contents[j].key.value, contents[j].lastModified, contents[j].size) in r
    {
      StoredIsListed(contents, j);
    }
    ListedNewestFirst(contents, r);
  }

  lemma ListedIsStored(contents: seq<StoredObject>, b: Backup) returns (j: int)
    requires b in Sorting.SortBy(Lists.FilterMap(contents, AsBackup), NewestFirst())
    ensures Text.EndsWith(b.key, DumpSuffix)
    ensures 0 <= j < |contents| && contents[j] == StoredObject(Some(b.key), b.lastModified, b.size)
  {
    var dumps := Lists.FilterMap(contents, AsBackup);
    assert b in multiset(Sorting.SortBy(dumps, NewestFirst()));
    assert b in dumps;
    var i :| 0 <= i < |dumps| && dumps[i] == b;
    Lists.FilterMapSound(contents, AsBackup, i);
    j :| 0 <= j < |contents| && AsBackup(contents[j]) == Some(b);
  }

  lemma StoredIsListed(contents: seq<StoredObject>, j: int)
    requires 0 <= j < |contents| && contents[j].key.Some? && Text.EndsWith(contents[j].key.value, DumpSuffix)
    ensures Backup(contents[j].key.value, contents[j].lastModified, contents[j].size) in
      Sorting.SortBy(Lists.FilterMap(contents, AsBackup), NewestFirst())
  {
    var dumps := Lists.FilterMap(contents, AsBackup);
    var b := Backup(contents[j].key.value, contents[j].lastModified, contents[j].size);
    Lists.FilterMapComplete(contents, AsBackup, j);
    assert b in multiset(dumps);
    assert b in multiset(Sorting.SortBy(dumps, NewestFirst()));
  }

  lemma ListedNewestFirst(contents: seq<StoredObject>, r: seq<Backup>)
    requires r == Sorting.SortBy(Lists.FilterMap(contents, AsBackup), NewestFirst())
    ensures forall i, j :: 0 <= i < j < |r| ==> r[i].lastModified >= r[j].lastModified
  {
    Sorting.KeyConsistent((b: Backup) => -b.lastModified);
    assert Sorting.Consistent(NewestFirst()) by {
      assert forall a, b :: NewestFirst()(a, b) == (-a.lastModified) - (-b.lastModified);
    }
    Sorting.SortBySorted(Lists.FilterMap(contents, AsBackup), NewestFirst());
    forall i, j | 0 <= i < j < |r|
      ensures r[i].lastModified >= r[j].lastModified
    {
      assert NewestFirst()(r[i], r[j]) <= 0;
    }
  }

  /** The prefix argument changes nothing in the result. */
  lemma PrefixIgnored(p: string, q: string, isAdmin: bool, maxFiles: int, storeThrew: bool,
                      contents: Option<seq<StoredObject>>)
    ensures ListBackups(isAdmin, p, maxFiles, storeThrew, contents) == ListBackups(isAdmin, q, maxFiles, storeThrew, contents)
  {
  }

  /** `srv_getBackupDownloadUrl`: an admin gets the link the signer makes for
   *  the key with a one-hour lifetime; anyone else, or an admin whose
   *  signing throws (`None`), the generic failure. */
  function DownloadUrl(isAdmin: bool, key: string, sign: (string, int) -> Option<string>): (r: Result<string, string>)
    ensures r.Err? <==> !isAdmin || sign(key, LinkLifetime).None?
    ensures r.Err? ==> r.error == UrlFailure
    ensures r.Ok? ==> r.value == sign(key, LinkLifetime).value
  {
    if !isAdmin then Err(UrlFailure)
    else match sign(key, LinkLifetime)
      case None => Err(UrlFailure)
      case Some(url) => Ok(url)
  }
}
