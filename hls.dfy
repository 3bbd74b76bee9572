/** Types shared by every version of the live HLS poller and by the segment
    downloaders: optional values, the outcome of one HTTP round trip, the
    decoded documents the endpoints return, the request URLs, and the HTTP
    client seen as a script of replies. */
module Hls {

  datatype Option<+T> = None | Some(value: T)

  /** The outcome of one step of the poller that talks to the network:
      a value, a Go `error` return, a runtime panic (a nil dereference or a
      failed type assertion), or no reply at all because the script of
      replies that stands for the network has run out. */
  datatype Outcome<+T> = Ok(value: T) | Err | Panic | NoReply

  /** What `http.DefaultClient.Do` hands back: a transport error with no
      response, a nil response without an error, or a response with its
      status code and body and no error. An error that comes with a
      response (a failed redirect check) is not one of the cases. */
  datatype Response<+B> = TransportError | NilResponse | Reply(code: int, body: B)

  const StatusOK: int := 200

  /** One entry of a master playlist: its `Video` label and its URI. */
  datatype Variant = Variant(video: string, uri: string)

  /** A response body as the decoders see it. The token endpoint answers
      with a JSON document, the playlist endpoints with an m3u8 master or
      media playlist; anything else decodes to nothing. */
  datatype Doc =
    | TokenDoc(token: string, signature: string)
    | MasterDoc(variants: seq<Option<Variant>>)
    | MediaDoc(targetDuration: int, segments: seq<Option<string>>)
    | Undecodable

  /** The body of a segment download: the bytes `io.Copy` moves to the
      output and how long (in nanoseconds) the copy took. */
  datatype Transfer = Transfer(bytes: seq<bv8>, nanos: nat)

  datatype Credential = Credential(token: string, signature: string)

  /** A download the downloaders copy: a reply with status 200. */
  predicate Delivered(r: Response<Transfer>) {
    r.Reply? && r.code == StatusOK
  }

  /** What a downloader writes to its output for the replies `replies`:
      the body of each 200 reply, in order; nothing for a transport error,
      a nil response or another status. */
  function Copied(replies: seq<Response<Transfer>>): (r: seq<bv8>)
    ensures replies == [] ==> r == []
  {
    if replies == [] then []
    else
      var last := replies[|replies| - 1];
      Copied(replies[..|replies| - 1]) + (if Delivered(last) then last.body.bytes else [])
  }

  /** The output for two runs of replies is the output of the first run
      followed by that of the second. */
  lemma {:induction false} CopiedAppend(a: seq<Response<Transfer>>, b: seq<Response<Transfer>>)
    ensures Copied(a + b) == Copied(a) + Copied(b)
    decreases |b|
  {
    if b == [] {
      assert a + b == a;
    } else {
      assert (a + b)[..|a + b| - 1] == a + b[..|b| - 1];
      CopiedAppend(a, b[..|b| - 1]);
    }
  }

  /** TOKEN_API_MASK filled in with the channel name. */
  function TokenUrl(channel: string): string {
    "http://api.twitch.tv/api/channels/" + channel + "/access_token"
  }

  /** USHER_API_MASK filled in with the channel, the credential and p=123456. */
  function UsherUrl(channel: string, token: string, signature: string): string {
    UsherPlaylist(channel) + UsherQuery(token, signature)
  }

  function UsherPlaylist(channel: string): string {
    "http://usher.twitch.tv/api/channel/hls/" + channel + ".m3u8"
  }

  function UsherQuery(token: string, signature: string): string {
    "?player=twitchweb&token=" + token + "&sig=" + signature
      + "&$allow_audio_only=true&allow_source=true&type=any&p=123456"
  }

  /** `getToken` of playlist_manager.go and playlister.go: a transport
      error, a non-200 status and an undecodable body are errors; a nil
      response panics on `resp.StatusCode`. */
  function TokenReply(r: Response<Doc>): (o: Outcome<Credential>)
    ensures o.Ok? <==> r.Reply? && r.code == StatusOK && r.body.TokenDoc?
    ensures o.Ok? ==> o.value == Credential(r.body.token, r.body.signature)
    ensures o.Panic? <==> r.NilResponse?
    ensures !o.NoReply?
  {
    match r
    case TransportError => Err
    case NilResponse => Panic
    case Reply(code, body) =>
      if code != StatusOK then Err
      else if body.TokenDoc? then Ok(Credential(body.token, body.signature))
      else Err
  }

  /** `n` copies of `x`. */
  function Repeat<T>(x: T, n: nat): (r: seq<T>)
    ensures |r| == n
    ensures forall i :: 0 <= i < n ==> r[i] == x
  {
    if n == 0 then [] else Repeat(x, n - 1) + [x]
  }

  lemma RepeatAppend<T>(x: T, n: nat, m: nat)
    ensures Repeat(x, n) + Repeat(x, m) == Repeat(x, n + m)
  {
    assert forall i :: 0 <= i < n + m ==> (Repeat(x, n) + Repeat(x, m))[i] == x;
  }

  /** `http.DefaultClient` as the sequence of replies it will give, in the
      order the requests are made; `requested` records every URL asked for. */
  class Client<B> {
    var pending: seq<Response<B>>
    ghost var requested: seq<string>

    constructor (script: seq<Response<B>>)
      ensures pending == script && requested == []
    {
      pending := script;
      requested := [];
    }

    /** One GET. `None` means the script has no reply left for it. */
    method Do(url: string) returns (r: Option<Response<B>>)
      modifies this
      ensures old(pending) == [] ==> r == None && pending == [] && requested == old(requested)
      ensures old(pending) != [] ==>
        && r == Some(old(pending)[0])
        && pending == old(pending)[1..]
        && requested == old(requested) + [url]
    {
      if pending == [] {
        r := None;
      } else {
        r := Some(pending[0]);
        pending := pending[1..];
        requested := requested + [url];
      }
    }
  }
}
