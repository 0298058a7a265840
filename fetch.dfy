/** FetchStreamerData: one request per streamer, one after the other, and the
    classification of each received page into a status code. */
module Fetch {
  import opened CLib
  import opened Memory
  import Commands

  /** Marker of a live broadcast in the page markup. */
  const KwLive: string := "live_user"
  /** Marker of an existing channel page. */
  const KwExist: string := "www.twitch.tv/"

  /** The status codes the program stores in its status array. */
  const Live := 0
  const Offline := 1
  const Error := 2

  /** One call of the write callback during a transfer: the bytes delivered,
      and whether the realloc for them succeeds. */
  datatype Delivery = Delivery(data: seq<char>, allocOk: bool)

  /** What curl_easy_perform does for one streamer: the chunks it delivers, in
      order, and whether it ends with CURLE_OK. */
  datatype Transfer = Transfer(deliveries: seq<Delivery>, ok: bool)

  /** The bytes of the chunks, in delivery order. */
  function Received(ds: seq<Delivery>): seq<char>
  {
    if ds == [] then [] else Received(ds[..|ds| - 1]) + ds[|ds| - 1].data
  }

  /** No realloc during the transfer fails. */
  predicate AllocsOk(t: Transfer)
  {
    forall k :: 0 <= k < |t.deliveries| ==> t.deliveries[k].allocOk
  }

  /** Lines 137-149: a failed transfer is an error; otherwise strstr on the
      received page (up to its first NUL) looks for the live marker first,
      then for the channel marker. */
  function Classify(transferOk: bool, body: seq<char>): (code: int)
    ensures code in {Live, Offline, Error}
  {
    if !transferOk then Error
    else if Contains(CStr(body), KwLive) then Live
    else if Contains(CStr(body), KwExist) then Offline
    else Error
  }

  /** The status a complete transfer gives its streamer. */
  function StatusOf(t: Transfer): int
  {
    Classify(t.ok, Received(t.deliveries))
  }

  /** Index of the first transfer during which realloc fails and the process
      exits, or the number of transfers when none does. */
  function FirstExit(ts: seq<Transfer>): (r: nat)
    ensures r <= |ts|
    ensures forall j :: 0 <= j < r ==> AllocsOk(ts[j])
    ensures r < |ts| ==> !AllocsOk(ts[r])
  {
    if ts == [] then 0
    else if !AllocsOk(ts[0]) then 0
    else 1 + FirstExit(ts[1..])
  }

  // Properties of the classification.

  /** A received page in which the live marker occurs before any NUL is live,
      whatever else it holds, the channel marker included. */
  lemma LiveMarkerMakesLive(pre: seq<char>, post: seq<char>)
    requires NUL !in pre
    ensures Classify(true, pre + KwLive + post) == Live
  {
    assert NUL !in KwLive;
    CStrAppend(pre + KwLive, post);
    assert CStr(pre + KwLive + post) == pre + KwLive + CStr(post);
    ContainsInside(pre, KwLive, CStr(post));
  }

  /** A received page with the channel marker before any NUL and no live marker
      is offline. */
  lemma ExistMarkerMakesOffline(pre: seq<char>, post: seq<char>)
    requires NUL !in pre
    requires !Contains(CStr(pre + KwExist + post), KwLive)
    ensures Classify(true, pre + KwExist + post) == Offline
  {
    assert NUL !in KwExist;
    CStrAppend(pre + KwExist, post);
    ContainsInside(pre, KwExist, CStr(post));
  }

  /** A failed transfer is an error whatever was received. */
  lemma FailedTransferIsError(body: seq<char>)
    ensures Classify(false, body) == Error
  {
  }

  /** Bytes after a NUL in the page never change the status: strstr stops there. */
  lemma BytesAfterNulIgnored(ok: bool, pre: seq<char>, post: seq<char>)
    ensures Classify(ok, pre + [NUL] + post) == Classify(ok, pre)
  {
    CStrStopsAtNul(pre, post);
  }

  /** The classification against the reference definition of an occurrence:
      live exactly when the live marker occurs in the page's C string;
      offline exactly when it does not and the channel marker does. */
  lemma ClassifyByOccurrence(body: seq<char>)
    ensures Classify(true, body) == Live <==> Occurs(CStr(body), KwLive)
    ensures Classify(true, body) == Offline <==> !Occurs(CStr(body), KwLive) && Occurs(CStr(body), KwExist)
    ensures Classify(true, body) == Error <==> !Occurs(CStr(body), KwLive) && !Occurs(CStr(body), KwExist)
  {
    ContainsIffOccurs(CStr(body), KwLive);
    ContainsIffOccurs(CStr(body), KwExist);
  }

  // The imperative part.

  /** curl_easy_perform on a fresh buffer (malloc(1), size 0): each delivered
      chunk goes through the write callback, in order. exited is true when a
      realloc failed, at which point the callback ended the process. */
  method Perform(t: Transfer) returns (buf: MemoryStruct, exited: bool)
    ensures buf.Valid()
    ensures exited <==> !AllocsOk(t)
    ensures !exited ==> buf.Contents() == Received(t.deliveries)
  {
    buf := new MemoryStruct();
    exited := false;
    var k := 0;
    while k < |t.deliveries|
      invariant 0 <= k <= |t.deliveries|
      invariant buf.Valid()
      invariant forall j :: 0 <= j < k ==> t.deliveries[j].allocOk
      invariant buf.Contents() == Received(t.deliveries[..k])
      modifies buf
    {
      var d := t.deliveries[k];
      ghost var before := buf.Contents();
      var r := buf.Append(d.data, 1, |d.data|, d.allocOk);
      if r.ExitFailure? {
        exited := true;
        return;
      }
      assert buf.Contents() == before + d.data;
      assert t.deliveries[..k + 1][..k] == t.deliveries[..k];
      assert Received(t.deliveries[..k + 1]) == Received(t.deliveries[..k]) + d.data;
      k := k + 1;
    }
    assert t.deliveries[..k] == t.deliveries;
  }

  /** One iteration of lines 108-156: build the streamer's page address, run
      the transfer into a fresh buffer and classify what it received. When
      the process exits during the transfer no status is stored, and code
      carries no information. */
  method FetchOne(name: string, t: Transfer) returns (url: seq<char>, exited: bool, code: int)
    ensures url == Commands.Url(name) + [NUL]
    ensures exited <==> !AllocsOk(t)
    ensures !exited ==> code == StatusOf(t)
  {
    var address := Commands.BuildUrl(name);
    url := address[..];
    var buf;
    buf, exited := Perform(t);
    if exited {
      code := Error;
      return;
    }
    BufferCString(buf);
    code := Classify(t.ok, buf.memory[..]);
  }

  /** Lines 108-156: for each streamer in turn, fetch and classify its page
      and store the status in its slot. requested lists the addresses handed
      to curl, NUL-terminated. When a realloc fails the process exits: the
      slots from that streamer on keep what they held. */
  method FetchStreamerData(streamers: seq<string>, transfers: seq<Transfer>, status: array<int>)
    returns (exited: bool, requested: seq<seq<char>>)
    requires |transfers| == |streamers| == status.Length
    modifies status
    ensures exited <==> FirstExit(transfers) < |transfers|
    ensures forall i :: 0 <= i < status.Length ==>
              status[i] == if i < FirstExit(transfers) then StatusOf(transfers[i]) else old(status[i])
    ensures |requested| == if exited then FirstExit(transfers) + 1 else |streamers|
    ensures forall j :: 0 <= j < |requested| ==> requested[j] == Commands.Url(streamers[j]) + [NUL]
  {
    var i := 0;
    exited := false;
    requested := [];
    while i < |streamers|
      invariant 0 <= i <= |streamers|
      invariant i <= FirstExit(transfers)
      invariant |requested| == i
      invariant forall j :: 0 <= j < i ==> requested[j] == Commands.Url(streamers[j]) + [NUL]
      invariant forall j :: 0 <= j < status.Length ==>
                  status[j] == if j < i then StatusOf(transfers[j]) else old(status[j])
    {
      var url, exit, code := FetchOne(streamers[i], transfers[i]);
      requested := requested + [url];
      if exit {
        exited := true;
        return;
      }
      status[i] := code;
      i := i + 1;
    }
  }
}
