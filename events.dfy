/** The notifications the pipeline broadcasts, the decrypt engine's callbacks,
    how each callback is forwarded, and the shape of one run's event trace. */
module Events {
  import opened Common

  /** Download progress as the engine reports it. */
  datatype DownloadProgress = DownloadProgress(bytesReceived: nat, totalBytesToReceive: Option<nat>)

  /** The tag metadata the engine reads from the stream. */
  datatype AppleTags = AppleTags(titleSansUnabridged: string, firstAuthor: Option<string>, narrator: Option<string>)

  /** One event fired by DownloadDecryptBook. Begin and Completed carry the
      book's product id in place of the LibraryBook object. */
  datatype Event =
    | Begin(productId: string)
    | Completed(productId: string)
    | StreamingBegin(message: string)
    | StreamingCompleted(message: string)
    | StreamingProgressChanged(progress: DownloadProgress)
    | StreamingTimeRemaining(remaining: nat)
    | RequestCoverArt
    | CoverImageDiscovered(image: seq<bv8>)
    | TitleDiscovered(title: string)
    | AuthorsDiscovered(authors: string)
    | NarratorsDiscovered(narrators: string)
  {
    /** Events that only fire from inside the engine's run. */
    predicate FromEngine() {
      StreamingProgressChanged? || StreamingTimeRemaining? || RequestCoverArt? || CoverImageDiscovered?
      || TitleDiscovered? || AuthorsDiscovered? || NarratorsDiscovered?
    }
  }

  /** One callback the decrypt engine makes while it runs. */
  datatype EngineCallback =
    | DecryptProgressUpdate(progress: DownloadProgress)
    | DecryptTimeRemaining(remaining: nat)
    | RetrievedCoverArt(image: Option<seq<bv8>>)
    | RetrievedTags(tags: AppleTags)

  const Unknown: string := "[unknown]"

  /** The ?? "[unknown]" default applied to absent tags. */
  function OrUnknown(s: Option<string>): (r: string)
    ensures s.Some? ==> r == s.value
    ensures s.None? ==> r == Unknown
  {
    match s
    case Some(v) => v
    case None => Unknown
  }

  /** The cover-art handler: a missing image asks observers for one, but only
      when fixups are allowed; a present image is announced. */
  function CoverArtEvents(image: Option<seq<bv8>>, allowLibationFixup: bool): (r: seq<Event>)
    ensures |r| <= 1
    ensures |r| == 1 <==> image.Some? || allowLibationFixup
    ensures RequestCoverArt in r <==> image.None? && allowLibationFixup
    ensures image.Some? ==> r == [CoverImageDiscovered(image.value)]
    ensures image.None? ==> forall e :: e in r ==> !e.CoverImageDiscovered?
    ensures forall e :: e in r ==> e.FromEngine()
  {
    (if image.None? && allowLibationFixup then [RequestCoverArt] else [])
    + (if image.Some? then [CoverImageDiscovered(image.value)] else [])
  }

  /** The tags handler: title, first author and narrator, in that order, the
      last two defaulting to "[unknown]". */
  function TagEvents(tags: AppleTags): (r: seq<Event>)
    ensures |r| == 3
    ensures r[0].TitleDiscovered? && r[0].title == tags.titleSansUnabridged
    ensures r[1].AuthorsDiscovered? && (tags.firstAuthor.None? ==> r[1].authors == Unknown)
    ensures tags.firstAuthor.Some? ==> r[1].authors == tags.firstAuthor.value
    ensures r[2].NarratorsDiscovered? && (tags.narrator.None? ==> r[2].narrators == Unknown)
    ensures tags.narrator.Some? ==> r[2].narrators == tags.narrator.value
  {
    [ TitleDiscovered(tags.titleSansUnabridged),
      AuthorsDiscovered(OrUnknown(tags.firstAuthor)),
      NarratorsDiscovered(OrUnknown(tags.narrator)) ]
  }

  /** What the pipeline fires in answer to one engine callback. */
  function Forward(cb: EngineCallback, allowLibationFixup: bool): (r: seq<Event>)
    ensures forall e :: e in r ==> e.FromEngine()
  {
    match cb
    case DecryptProgressUpdate(p) => [StreamingProgressChanged(p)]
    case DecryptTimeRemaining(t) => [StreamingTimeRemaining(t)]
    case RetrievedCoverArt(image) => CoverArtEvents(image, allowLibationFixup)
    case RetrievedTags(tags) => TagEvents(tags)
  }

  /** Everything the pipeline fires while the engine runs, callback by callback. */
  function ForwardAll(cbs: seq<EngineCallback>, allowLibationFixup: bool): (r: seq<Event>)
    ensures forall e :: e in r ==> e.FromEngine()
  {
    if cbs == [] then []
    else Forward(cbs[0], allowLibationFixup) + ForwardAll(cbs[1..], allowLibationFixup)
  }

  /** The decrypt step's events: StreamingBegin, then the forwarded engine
      events, then StreamingCompleted (fired from a finally block). */
  function DecryptEvents(beginMessage: string, forwarded: seq<Event>, endMessage: string): seq<Event> {
    [StreamingBegin(beginMessage)] + forwarded + [StreamingCompleted(endMessage)]
  }

  /** A whole run's events: Begin, the inner events, and Completed (fired from
      a finally block). */
  function ProcessEvents(productId: string, inner: seq<Event>): seq<Event> {
    [Begin(productId)] + inner + [Completed(productId)]
  }

  /** StreamingBegin is first and StreamingCompleted last, each exactly once,
      and every event between them comes from the engine. */
  lemma DecryptEventsBracketed(beginMessage: string, forwarded: seq<Event>, endMessage: string)
    requires forall e :: e in forwarded ==> e.FromEngine()
    ensures var t := DecryptEvents(beginMessage, forwarded, endMessage);
      |t| >= 2 &&
      (forall i :: 0 <= i < |t| ==> (t[i].StreamingBegin? <==> i == 0)) &&
      (forall i :: 0 <= i < |t| ==> (t[i].StreamingCompleted? <==> i == |t| - 1)) &&
      (forall i :: 0 <= i < |t| ==> (t[i].FromEngine() <==> 0 < i < |t| - 1)) &&
      (forall i :: 0 <= i < |t| ==> !t[i].Begin? && !t[i].Completed?)
  {
    var t := DecryptEvents(beginMessage, forwarded, endMessage);
    forall i | 0 < i < |t| - 1 ensures t[i] == forwarded[i - 1] {
    }
    forall i | 0 < i < |t| - 1 ensures t[i] in forwarded {
      assert t[i] == forwarded[i - 1];
    }
  }

  /** Begin is the first event and Completed the last, each exactly once,
      whatever the inner events are, provided they hold neither. */
  lemma ProcessEventsBracketed(productId: string, inner: seq<Event>)
    requires forall e :: e in inner ==> !e.Begin? && !e.Completed?
    ensures var t := ProcessEvents(productId, inner);
      |t| >= 2 && t[0] == Begin(productId) && t[|t| - 1] == Completed(productId) &&
      (forall i :: 0 <= i < |t| ==> (t[i].Begin? <==> i == 0)) &&
      (forall i :: 0 <= i < |t| ==> (t[i].Completed? <==> i == |t| - 1))
  {
    var t := ProcessEvents(productId, inner);
    forall i | 0 < i < |t| - 1 ensures t[i] in inner {
      assert t[i] == inner[i - 1];
    }
  }

  /** The trace of a run that reached the decrypt step: Begin, StreamingBegin,
      the engine's events, StreamingCompleted, Completed, in that order. */
  lemma RunEventsOrdered(productId: string, beginMessage: string, forwarded: seq<Event>, endMessage: string)
    requires forall e :: e in forwarded ==> e.FromEngine()
    ensures var t := ProcessEvents(productId, DecryptEvents(beginMessage, forwarded, endMessage));
      |t| >= 4 && t[0] == Begin(productId) && t[|t| - 1] == Completed(productId) &&
      (forall i :: 0 <= i < |t| ==> (t[i].Begin? <==> i == 0)) &&
      (forall i :: 0 <= i < |t| ==> (t[i].Completed? <==> i == |t| - 1)) &&
      (forall i :: 0 <= i < |t| ==> (t[i].StreamingBegin? <==> i == 1)) &&
      (forall i :: 0 <= i < |t| ==> (t[i].StreamingCompleted? <==> i == |t| - 2)) &&
      (forall i :: 0 <= i < |t| ==> (t[i].FromEngine() <==> 1 < i < |t| - 2))
  {
    var inner := DecryptEvents(beginMessage, forwarded, endMessage);
    DecryptEventsBracketed(beginMessage, forwarded, endMessage);
    forall e | e in inner ensures !e.Begin? && !e.Completed? {
      var k :| 0 <= k < |inner| && inner[k] == e;
    }
    ProcessEventsBracketed(productId, inner);
    var t := ProcessEvents(productId, inner);
    forall i | 0 < i < |t| - 1 ensures t[i] == inner[i - 1] {
    }
  }
}
