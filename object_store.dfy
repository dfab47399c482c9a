/**
 * An in-memory model of the binary object store behind `/api/files`: a flat
 * namespace of keys, each naming at most one object. Writing to a key
 * replaces whatever was there. Etags and upload times are assigned by the
 * store and arrive here as a `Stamp`; list order and cursor encoding are the
 * store's own, so a listing is a `Page` the store hands back, constrained by
 * `IsPage`.
 */
module ObjectStore {
  import opened Wrappers
  import opened Text

  newtype byte = x: int | 0 <= x < 256

  type Timestamp = int

  datatype HttpMetadata = HttpMetadata(contentType: Option<string>)

  datatype StoredObject = StoredObject(
    body: seq<byte>,
    httpMetadata: HttpMetadata,
    etag: string,
    uploaded: Timestamp,
    customMetadata: map<string, string>)

  /** What the store assigns to an object it writes. */
  datatype Stamp = Stamp(etag: string, uploaded: Timestamp)

  /** An object's metadata without its body, as `head` and `list` report it. */
  datatype ObjectInfo = ObjectInfo(
    key: string,
    size: nat,
    etag: string,
    httpEtag: string,
    uploaded: Timestamp,
    httpMetadata: HttpMetadata,
    customMetadata: map<string, string>)

  /** The etag as an HTTP validator: the same token in double quotes. */
  function Quoted(etag: string): string {
    "\"" + etag + "\""
  }

  function InfoOf(key: string, o: StoredObject): ObjectInfo {
    ObjectInfo(key, |o.body|, o.etag, Quoted(o.etag), o.uploaded, o.httpMetadata, o.customMetadata)
  }

  /**
   * How a listing entry reports a stored object. A listing that does not ask
   * for them (`include`) carries no metadata the caller can rely on, so
   * `httpMetadata` and `customMetadata` are left unconstrained.
   */
  predicate Describes(info: ObjectInfo, key: string, o: StoredObject) {
    && info.key == key
    && info.size == |o.body|
    && info.etag == o.etag
    && info.httpEtag == Quoted(o.etag)
    && info.uploaded == o.uploaded
  }

  /** One page of a listing, and the opaque token to continue it. */
  datatype Page = Page(objects: seq<ObjectInfo>, truncated: bool, cursor: string)

  predicate Listed(page: Page, key: string) {
    exists i :: 0 <= i < |page.objects| && page.objects[i].key == key
  }

  /**
   * What the store promises of `list({prefix, limit})`: at most `limit`
   * distinct objects, each one present under a key starting with `prefix`
   * and described as stored; `truncated` exactly when some such key was left
   * for a later page.
   */
  ghost predicate IsPage(objects: map<string, StoredObject>, prefix: string, limit: nat, page: Page) {
    && |page.objects| <= limit
    && (forall i :: 0 <= i < |page.objects| ==>
          && page.objects[i].key in objects
          && StartsWith(page.objects[i].key, prefix)
          && Describes(page.objects[i], page.objects[i].key, objects[page.objects[i].key]))
    && (forall i, j :: 0 <= i < j < |page.objects| ==> page.objects[i].key != page.objects[j].key)
    && (page.truncated <==> exists k :: k in objects && StartsWith(k, prefix) && !Listed(page, k))
  }

  /** The bucket's state across requests. */
  class Bucket {
    var objects: map<string, StoredObject>

    constructor ()
      ensures objects == map[]
    {
      objects := map[];
    }

    /** `head(key)`: the metadata of the object at `key`, without its body. */
    function Head(key: string): (info: Option<ObjectInfo>)
      reads this
      ensures info.Some? <==> key in objects
      ensures info.Some? ==> info.value == InfoOf(key, objects[key])
    {
      if key in objects then Some(InfoOf(key, objects[key])) else None
    }

    /** `put(key, body, options)`: writes the object, replacing any at `key`. */
    method Put(key: string, body: seq<byte>, httpMetadata: HttpMetadata, customMetadata: map<string, string>, stamp: Stamp)
      returns (info: ObjectInfo)
      modifies this
      ensures objects == old(objects)[key := StoredObject(body, httpMetadata, stamp.etag, stamp.uploaded, customMetadata)]
      ensures info == InfoOf(key, objects[key])
    {
      objects := objects[key := StoredObject(body, httpMetadata, stamp.etag, stamp.uploaded, customMetadata)];
      info := InfoOf(key, objects[key]);
    }

    /** `delete(key)` */
    method Delete(key: string)
      modifies this
      ensures objects == old(objects) - {key}
    {
      objects := objects - {key};
    }
  }
}
