/** The image storage service: `uploadImage` stores a file under the
    user's folder with a timestamped name and answers its public URL;
    `deleteImage` finds the stored path inside such a URL and removes it,
    never throwing. The bucket is a set of stored paths. */
module Storage {
  import opened Wrappers
  import opened Strings
  import opened Js
  import opened Db

  /** The bucket used when none is configured. */
  const DefaultBucket := "item-images"

  /** `process.env.NEXT_PUBLIC_SUPABASE_STORAGE_BUCKET ?? 'item-images'` */
  function BucketName(configured: Option<string>): (b: string)
    ensures configured.Some? ==> b == configured.value
    ensures configured.None? ==> b == DefaultBucket
  {
    if configured.Some? then configured.value else DefaultBucket
  }

  // ---------------------------------------------------------------------
  // Upload paths
  // ---------------------------------------------------------------------

  /** `name.split('.').pop()`: the text after the last dot, or the whole
      name when it has none. */
  function Extension(fileName: string): (ext: string)
    ensures !Contains(ext, ".")
    ensures !Contains(fileName, ".") ==> ext == fileName
    ensures Contains(fileName, ".") ==> EndsWith(fileName, "." + ext)
  {
    LastPieceShape(fileName, ".");
    LastPiece(fileName, ".")
  }

  /** `${userId}/${Date.now()}.${fileExt}`; `now` is the clock in
      milliseconds. */
  function UploadPath(userId: string, now: nat, fileName: string): string {
    userId + "/" + NatToString(now) + "." + Extension(fileName)
  }

  /** The stored file keeps the extension of the uploaded one. */
  lemma UploadKeepsExtension(userId: string, now: nat, fileName: string)
    ensures Extension(UploadPath(userId, now, fileName)) == Extension(fileName)
  {
    var ext := Extension(fileName);
    LastPieceAfter(userId + "/" + NatToString(now), ".", ext);
  }

  /** The stored file sits in the user's folder: its first path segment
      is the user's id, when the id holds no slash. */
  lemma UploadInUserFolder(userId: string, now: nat, fileName: string)
    requires !Contains(userId, "/")
    ensures StartsWith(UploadPath(userId, now, fileName), userId + "/")
    ensures FirstPiece(UploadPath(userId, now, fileName), "/") == userId
  {
    var rest := NatToString(now) + "." + Extension(fileName);
    assert UploadPath(userId, now, fileName) == userId + "/" + rest;
    FirstPieceBefore(userId, "/", rest);
  }

  /** Two uploads of the user at different times go to different paths. */
  lemma UploadPathsDiffer(userId: string, now: nat, later: nat, fileName: string, other: string)
    requires now != later
    ensures UploadPath(userId, now, fileName) != UploadPath(userId, later, other)
  {
    var a, b := UploadPath(userId, now, fileName), UploadPath(userId, later, other);
    var n, m := NatToString(now), NatToString(later);
    if a == b {
      var k := |userId| + 1;
      var x, y := "." + Extension(fileName), "." + Extension(other);
      assert a[k..] == n + x;
      assert b[k..] == m + y;
      NumeralsDiffer(n, m, "." + Extension(fileName), "." + Extension(other));
      NatToStringValue(now);
      NatToStringValue(later);
    }
  }

  /** Two digit strings each followed by a non-digit are equal when their
      concatenations with what follows are. */
  lemma {:induction false} NumeralsDiffer(n: string, m: string, x: string, y: string)
    requires AllDigits(n) && AllDigits(m) && |x| > 0 && |y| > 0 && !IsDigit(x[0]) && !IsDigit(y[0])
    requires n + x == m + y
    ensures n == m
    decreases |n|
  {
    if |n| > 0 && |m| > 0 {
      assert n[0] == (n + x)[0] == (m + y)[0] == m[0];
      assert n[1..] + x == (n + x)[1..] == (m + y)[1..] == m[1..] + y;
      NumeralsDiffer(n[1..], m[1..], x, y);
    } else if |n| > 0 || |m| > 0 {
      // one numeral ends where the other still has a digit
      ConcatHead(n, x);
      ConcatHead(m, y);
      assert false;
    }
  }

  lemma ConcatHead(n: string, x: string)
    ensures |n| > 0 ==> (n + x)[0] == n[0]
    ensures |n| == 0 && |x| > 0 ==> (n + x)[0] == x[0]
  {
  }

  // ---------------------------------------------------------------------
  // Public URLs and the path inside them
  // ---------------------------------------------------------------------

  /** The pathname of a stored file's public URL, as the storage client
      builds it. */
  function PublicPathname(bucket: string, path: string): string {
    "/storage/v1/object/public/" + bucket + "/" + path
  }

  /** The public URL: the project's origin and the pathname. */
  function PublicUrl(origin: string, bucket: string, path: string): string {
    origin + PublicPathname(bucket, path)
  }

  /** The path `deleteImage` removes: the piece of the pathname between
      the first `<bucket>/` and the next; none when the URL does not parse
      (`pathname` is `None`) or has no `<bucket>/`. */
  function RemoveTarget(pathname: Option<string>, bucket: string): (r: Option<string>)
    ensures pathname.None? ==> r.None?
    ensures pathname.Some? ==> (r.Some? <==> Contains(pathname.value, bucket + "/"))
    ensures r.Some? ==> !Contains(r.value, bucket + "/")
    ensures r.Some? ==> var i := IndexOf(pathname.value, bucket + "/").value;
      r.value == FirstPiece(pathname.value[i + |bucket| + 1..], bucket + "/")
  {
    if pathname.None? then None
    else
      var sep, p := bucket + "/", pathname.value;
      var parts := Split(p, sep);
      SplitHasSeveralPieces(p, sep);
      if |parts| < 2 then None
      else
        SplitPiecesFree(p, sep, 1);
        SplitAt(p, sep, IndexOf(p, sep).value);
        Some(parts[1])
  }

  /** In the default bucket, the path inside a public URL is the stored
      path itself, unless that path holds `item-images/`. */
  lemma RemovesWhatWasStored(path: string)
    requires !Contains(path, DefaultBucket + "/")
    ensures RemoveTarget(Some(PublicPathname(DefaultBucket, path)), DefaultBucket) == Some(path)
  {
    var sep := DefaultBucket + "/";
    var head := "/storage/v1/object/public/";
    var s := PublicPathname(DefaultBucket, path);
    assert s == head + sep + path;
    assert s[|head|..|head| + |sep|] == sep;
    forall j: nat | j < |head|
      ensures !OccursAt(s, sep, j)
    {
      assert s[j] == head[j];
      if j == 23 {
        assert s[24] == 'c';
      }
    }
    IndexOfAt(s, sep, |head|);
    assert s[|head| + |sep|..] == path;
  }

  // ---------------------------------------------------------------------
  // The bucket
  // ---------------------------------------------------------------------

  /** What the storage server answers an upload of `path`, given the
      reply it would send otherwise: a failure, or a refusal because the
      path is taken (`upsert: false`). */
  function UploadRefusal(files: set<string>, path: string, reply: Fault): (e: Option<BackendError>)
    ensures e.None? <==> reply.Ok? && path !in files
  {
    if reply.Fail? then Some(reply.error)
    else if path in files then Some(BackendError(None, "The resource already exists"))
    else None
  }

  class Bucket {
    var files: set<string>

    constructor (initial: set<string>)
      ensures files == initial
    {
      files := initial;
    }

    /** `.upload(path, file, { upsert: false })` */
    method Upload(path: string, reply: Fault) returns (refused: Option<BackendError>)
      modifies this
      ensures refused == UploadRefusal(old(files), path, reply)
      ensures files == if refused.None? then old(files) + {path} else old(files)
    {
      refused := UploadRefusal(files, path, reply);
      if refused.None? {
        files := files + {path};
      }
    }

    /** `.remove([path])`: the path is gone unless the request failed. */
    method Remove(path: string, reply: Fault)
      modifies this
      ensures files == if reply.Ok? then old(files) - {path} else old(files)
    {
      if reply.Ok? {
        files := files - {path};
      }
    }
  }

  /** `uploadImage(file, userId)` on the files: the new files and the
      outcome, the public URL or the thrown storage error. */
  function UploadEffect(files: set<string>, bucket: string, origin: string, userId: string, now: nat,
                        fileName: string, reply: Fault): (set<string>, Outcome<string>)
  {
    var path := UploadPath(userId, now, fileName);
    var refused := UploadRefusal(files, path, reply);
    if refused.Some? then (files, Threw(JsError(refused.value.message)))
    else (files + {path}, Returned(PublicUrl(origin, bucket, path)))
  }

  /** `deleteImage(imageUrl)` on the files, given the pathname the URL
      parser reads (`None` when it throws): the new files and the path it
      asked to remove, if any. It never throws. */
  function DeleteEffect(files: set<string>, bucket: string, pathname: Option<string>, reply: Fault): (set<string>, Option<string>)
  {
    var target := RemoveTarget(pathname, bucket);
    if target.None? then (files, None)
    else (if reply.Ok? then files - {target.value} else files, target)
  }

  /** `uploadImage(file, userId)`; `now` is the clock and `reply` the
      storage server's answer. */
  method UploadImage(b: Bucket, bucket: string, origin: string, userId: string, now: nat, fileName: string, reply: Fault)
    returns (r: Outcome<string>)
    modifies b
    ensures (b.files, r) == UploadEffect(old(b.files), bucket, origin, userId, now, fileName, reply)
  {
    var path := UploadPath(userId, now, fileName);
    var refused := b.Upload(path, reply);
    if refused.Some? {
      return Threw(JsError(refused.value.message));
    }
    r := Returned(PublicUrl(origin, bucket, path));
  }

  /** `deleteImage(imageUrl)`; `pathname` is what `new URL(imageUrl)`
      reads, and `reply` the answer to the remove request, whose failure
      is only logged. */
  method DeleteImage(b: Bucket, bucket: string, pathname: Option<string>, reply: Fault)
    returns (removed: Option<string>)
    modifies b
    ensures (b.files, removed) == DeleteEffect(old(b.files), bucket, pathname, reply)
  {
    var target := RemoveTarget(pathname, bucket);
    if target.None? {
      return None;
    }
    b.Remove(target.value, reply);
    removed := target;
  }

  /** An upload adds exactly its file or throws and adds nothing. */
  lemma UploadAddsOne(files: set<string>, bucket: string, origin: string, userId: string, now: nat, fileName: string, reply: Fault)
    ensures var u := UploadEffect(files, bucket, origin, userId, now, fileName, reply);
      var path := UploadPath(userId, now, fileName);
      (u.1.Returned? <==> reply.Ok? && path !in files)
      && (u.1.Returned? ==> u.0 == files + {path} && path !in files)
      && (u.1.Threw? ==> u.0 == files && u.1.thrown.JsError?)
  {
  }

  /** Deleting the image an upload to the default bucket answered removes
      the uploaded file again, when the URL parser gives back the public
      pathname. */
  lemma DeleteUndoesUpload(files: set<string>, origin: string, userId: string, now: nat, fileName: string,
                           pathname: Option<string>, reply: Fault)
    requires reply.Ok? && UploadPath(userId, now, fileName) !in files
    requires !Contains(UploadPath(userId, now, fileName), DefaultBucket + "/")
    requires pathname == Some(PublicPathname(DefaultBucket, UploadPath(userId, now, fileName)))
    ensures var u := UploadEffect(files, DefaultBucket, origin, userId, now, fileName, reply);
      DeleteEffect(u.0, DefaultBucket, pathname, Ok).0 == files
  {
    RemovesWhatWasStored(UploadPath(userId, now, fileName));
  }
}
