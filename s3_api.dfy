/**
  The part of the object-store client that the migration service uses, as
  data: the three commands it sends and the answers it reads back. The
  client itself is not modelled; its behaviour is supplied by the caller,
  as the sequence of listing responses it gives and as functions from a
  head or copy request to that request's completion.
 */
module S3Api {
  import opened MigrationTypes

  /** An entry of a listing page, whose fields the store may leave out. */
  datatype ListedItem = ListedItem(
    key: Option<string>,
    size: Option<int>,
    lastModified: Option<Timestamp>,
    etag: Option<string>)

  /** One page of a listing: its entries, if any, and the token that asks
      for the next page, if any. */
  datatype ListPage = ListPage(contents: Option<seq<ListedItem>>, nextContinuationToken: Option<string>)

  datatype ListRequest = ListRequest(bucket: string, continuationToken: Option<string>)

  datatype HeadRequest = HeadRequest(bucket: string, key: string)

  /** A server-side copy into `bucket` under `key` of the object that
      `copySource` ("bucket/key") names. */
  datatype CopyRequest = CopyRequest(bucket: string, copySource: string, key: string)

  /** A command sent to one of the two clients. */
  datatype Command =
    | List(list: ListRequest)
    | Head(head: HeadRequest)
    | Copy(copy: CopyRequest)

  /** How the destination answers a head request: returns, or throws. */
  type HeadService = HeadRequest -> Try<()>

  /** How the destination answers a copy request: returns, or throws. */
  type CopyService = CopyRequest -> Try<()>
}
