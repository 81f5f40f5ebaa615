/**
The part of S3 the state store uses. A bucket is a value: what it holds, how many
calls it has answered, and for every call number whether the service answers that
call at all. A call that goes unanswered has no effect.
*/
module ObjectStore {
  import opened Wrappers

  /** A state record; `rest` stands for the fields no operation looks at, and
      `encodable` says whether JSON can express them. */
  datatype IaCState = IaCState(
    resourceID: string, resourceType: string, provider: string, status: string,
    rest: string, encodable: bool)

  /** Encoding and decoding JSON is assumed to be a round trip. */
  datatype Body = Json(state: IaCState) | Raw(text: string)

  type Objects = map<string, Body>

  datatype Failure = NotFound | PreconditionFailed | Unavailable

  datatype Bucket = Bucket(answers: nat -> bool, calls: nat, objects: Objects) {
    predicate Answered() { answers(calls) }

    function Next(after: Objects): Bucket { Bucket(answers, calls + 1, after) }

    function Get(key: string): (Bucket, Result<Body, Failure>) {
      (Next(objects),
       if !Answered() then Err(Unavailable)
       else if key in objects then Ok(objects[key])
       else Err(NotFound))
    }

    function Head(key: string): (Bucket, Result<(), Failure>) {
      (Next(objects),
       if !Answered() then Err(Unavailable)
       else if key in objects then Ok(())
       else Err(NotFound))
    }

    function Put(key: string, body: Body): (Bucket, Result<(), Failure>) {
      if Answered() then (Next(objects[key := body]), Ok(()))
      else (Next(objects), Err(Unavailable))
    }

    /** A conditional write: If-None-Match with the wildcard, section 13.1.2 of
        RFC 9110, answered 412 (section 15.5.13) when the key is taken. */
    function PutIfAbsent(key: string, body: Body): (Bucket, Result<(), Failure>) {
      if !Answered() then (Next(objects), Err(Unavailable))
      else if key in objects then (Next(objects), Err(PreconditionFailed))
      else (Next(objects[key := body]), Ok(()))
    }

    /** Deleting a missing key succeeds. */
    function Delete(key: string): (Bucket, Result<(), Failure>) {
      if Answered() then (Next(objects - {key}), Ok(()))
      else (Next(objects), Err(Unavailable))
    }
  }

  /** The client object the store holds: each method is one call on the bucket. */
  class S3Client {
    var bucket: Bucket

    constructor (bucket: Bucket)
      ensures this.bucket == bucket
    {
      this.bucket := bucket;
    }

    method GetObject(key: string) returns (r: Result<Body, Failure>)
      modifies this
      ensures (bucket, r) == old(bucket).Get(key)
    {
      r := bucket.Get(key).1;
      bucket := bucket.Get(key).0;
    }

    method HeadObject(key: string) returns (r: Result<(), Failure>)
      modifies this
      ensures (bucket, r) == old(bucket).Head(key)
    {
      r := bucket.Head(key).1;
      bucket := bucket.Head(key).0;
    }

    method PutObject(key: string, body: Body) returns (r: Result<(), Failure>)
      modifies this
      ensures (bucket, r) == old(bucket).Put(key, body)
    {
      r := bucket.Put(key, body).1;
      bucket := bucket.Put(key, body).0;
    }

    method PutObjectIfNoneMatch(key: string, body: Body) returns (r: Result<(), Failure>)
      modifies this
      ensures (bucket, r) == old(bucket).PutIfAbsent(key, body)
    {
      r := bucket.PutIfAbsent(key, body).1;
      bucket := bucket.PutIfAbsent(key, body).0;
    }

    method DeleteObject(key: string) returns (r: Result<(), Failure>)
      modifies this
      ensures (bucket, r) == old(bucket).Delete(key)
    {
      r := bucket.Delete(key).1;
      bucket := bucket.Delete(key).0;
    }

    /** One page of a listing that S3 has split into `pages`; the continuation token is
        the number of pages already taken. */
    method ListObjectsV2(pages: seq<seq<string>>, token: nat) returns (r: Result<seq<string>, Failure>)
      requires token < |pages|
      modifies this
      ensures bucket == old(bucket).Next(old(bucket).objects)
      ensures r == if old(bucket).Answered() then Ok(pages[token]) else Err(Unavailable)
    {
      r := if bucket.Answered() then Ok(pages[token]) else Err(Unavailable);
      bucket := bucket.Next(bucket.objects);
    }
  }
}
