/**
 * The capture pipeline of generateVideo (app/page.jsx): choosing the
 * recording MIME type, buffering the recorder's chunks, and the
 * Idle -> Recording video... -> Finalizing... -> Done lifecycle with its
 * object URLs. MediaRecorder, Blob and the URL registry are browser objects;
 * here they are abstract values: a chunk is its bytes, a blob is a MIME type
 * with bytes, and an object URL is a number handed out afresh each time.
 */
module Capture {
  import opened Wrappers

  type Byte = bv8
  /** An encoded chunk delivered by the recorder; its size is its length. */
  type Chunk = seq<Byte>
  /** An object URL, as handed out by URL.createObjectURL. */
  type Url = nat

  datatype Blob = Blob(mimeType: string, bytes: seq<Byte>)

  // ---------------------------------------------------------------------------
  // MIME type selection

  const Vp9: string := "video/webm;codecs=vp9"
  const Vp8: string := "video/webm;codecs=vp8"
  const PlainWebm: string := "video/webm"

  /** The recorder's preferred types, best first; PlainWebm is the fallback. */
  const Preferences: seq<string> := [Vp9, Vp8]

  /** Reference definition: the first preference the runtime supports, else the fallback. */
  function FirstSupported(prefs: seq<string>, isTypeSupported: string -> bool, fallback: string): string
  {
    if prefs == [] then fallback
    else if isTypeSupported(prefs[0]) then prefs[0]
    else FirstSupported(prefs[1..], isTypeSupported, fallback)
  }

  /**
   * FirstSupported picks a supported preference with no supported one before
   * it, and falls back only when no preference is supported.
   */
  lemma {:induction false} FirstSupportedIsFirst(prefs: seq<string>, isTypeSupported: string -> bool, fallback: string)
    ensures var m := FirstSupported(prefs, isTypeSupported, fallback);
      || (m == fallback && forall i :: 0 <= i < |prefs| ==> !isTypeSupported(prefs[i]))
      || (exists k :: 0 <= k < |prefs| && m == prefs[k] && isTypeSupported(prefs[k])
            && forall i :: 0 <= i < k ==> !isTypeSupported(prefs[i]))
  {
    if prefs != [] && !isTypeSupported(prefs[0]) {
      FirstSupportedIsFirst(prefs[1..], isTypeSupported, fallback);
      var m := FirstSupported(prefs, isTypeSupported, fallback);
      if m == fallback && forall i :: 0 <= i < |prefs[1..]| ==> !isTypeSupported(prefs[1..][i]) {
        assert forall i :: 0 <= i < |prefs| ==> !isTypeSupported(prefs[i]) by {
          forall i | 0 <= i < |prefs| ensures !isTypeSupported(prefs[i]) {
            if i > 0 { assert prefs[i] == prefs[1..][i - 1]; }
          }
        }
      } else {
        var k :| 0 <= k < |prefs[1..]| && m == prefs[1..][k] && isTypeSupported(prefs[1..][k])
          && forall i :: 0 <= i < k ==> !isTypeSupported(prefs[1..][i]);
        assert forall i :: 0 <= i < k + 1 ==> !isTypeSupported(prefs[i]) by {
          forall i | 0 <= i < k + 1 ensures !isTypeSupported(prefs[i]) {
            if i > 0 { assert prefs[i] == prefs[1..][i - 1]; }
          }
        }
        assert m == prefs[k + 1] && isTypeSupported(prefs[k + 1]);
      }
    }
  }

  /** The vp9 -> vp8 -> plain webm fallback chain of generateVideo. */
  function ChooseMimeType(isTypeSupported: string -> bool): (m: string)
    ensures m == Vp9 || m == Vp8 || m == PlainWebm
    ensures m != PlainWebm ==> isTypeSupported(m)
  {
    var mimeType := Vp9;
    if !isTypeSupported(mimeType) then
      var mimeType := Vp8;
      if !isTypeSupported(mimeType) then PlainWebm else mimeType
    else mimeType
  }

  /** The fallback chain is the first supported entry of the preference list [vp9, vp8]. */
  lemma ChooseMimeTypeIsFirstSupported(isTypeSupported: string -> bool)
    ensures ChooseMimeType(isTypeSupported) == FirstSupported(Preferences, isTypeSupported, PlainWebm)
  {
    var last := FirstSupported([], isTypeSupported, PlainWebm);
    assert [Vp8][1..] == [];
    assert FirstSupported([Vp8], isTypeSupported, PlainWebm) == if isTypeSupported(Vp8) then Vp8 else last;
    assert Preferences[1..] == [Vp8];
    assert FirstSupported(Preferences, isTypeSupported, PlainWebm)
      == if isTypeSupported(Vp9) then Vp9 else FirstSupported([Vp8], isTypeSupported, PlainWebm);
  }

  /** The first supported preference wins; plain webm is used only when neither codec is supported. */
  lemma ChooseMimeTypeOrder(isTypeSupported: string -> bool)
    ensures isTypeSupported(Vp9) ==> ChooseMimeType(isTypeSupported) == Vp9
    ensures !isTypeSupported(Vp9) && isTypeSupported(Vp8) ==> ChooseMimeType(isTypeSupported) == Vp8
    ensures ChooseMimeType(isTypeSupported) == PlainWebm <==> !isTypeSupported(Vp9) && !isTypeSupported(Vp8)
  {
  }

  // ---------------------------------------------------------------------------
  // The chunk buffer

  /** Whether ondataavailable keeps a delivered chunk: it is present and non-empty. */
  predicate Keeps(data: Option<Chunk>)
  {
    data.Some? && |data.value| > 0
  }

  /** The buffer after the given deliveries, in arrival order. */
  function Kept(delivered: seq<Option<Chunk>>): (kept: seq<Chunk>)
    ensures |kept| <= |delivered|
  {
    if delivered == [] then []
    else
      var rest := Kept(delivered[..|delivered| - 1]);
      var last := delivered[|delivered| - 1];
      if Keeps(last) then rest + [last.value] else rest
  }

  /** Every buffered chunk is non-empty, and each one was delivered. */
  lemma {:induction false} KeptNonEmpty(delivered: seq<Option<Chunk>>)
    ensures forall c :: c in Kept(delivered) ==> |c| > 0 && Some(c) in delivered
  {
    if delivered != [] {
      var prefix := delivered[..|delivered| - 1];
      KeptNonEmpty(prefix);
      assert forall d :: d in prefix ==> d in delivered;
    }
  }

  /** One delivery appends the chunk to the buffer iff it is kept. */
  lemma KeptSnoc(ds: seq<Option<Chunk>>, d: Option<Chunk>)
    ensures Kept(ds + [d]) == if Keeps(d) then Kept(ds) + [d.value] else Kept(ds)
  {
  }

  /** Every chunk that is present, empty or not, in arrival order. */
  function Present(delivered: seq<Option<Chunk>>): seq<Chunk>
  {
    if delivered == [] then []
    else
      var rest := Present(delivered[..|delivered| - 1]);
      var last := delivered[|delivered| - 1];
      if last.Some? then rest + [last.value] else rest
  }

  /** The sum of the chunk sizes. */
  function TotalSize(chunks: seq<Chunk>): nat
  {
    if chunks == [] then 0 else TotalSize(chunks[..|chunks| - 1]) + |chunks[|chunks| - 1]|
  }

  /** The bytes of a Blob built from a chunk list: the chunks concatenated in order. */
  function Concat(chunks: seq<Chunk>): (bytes: seq<Byte>)
    ensures |bytes| == TotalSize(chunks)
  {
    if chunks == [] then [] else Concat(chunks[..|chunks| - 1]) + chunks[|chunks| - 1]
  }

  /** Concatenation respects order: the bytes of an earlier run of chunks come first. */
  lemma {:induction false} ConcatAppend(a: seq<Chunk>, b: seq<Chunk>)
    ensures Concat(a + b) == Concat(a) + Concat(b)
  {
    if b != [] {
      var b' := b[..|b| - 1];
      assert (a + b)[..|a + b| - 1] == a + b';
      ConcatAppend(a, b');
    } else {
      assert a + b == a;
    }
  }

  /** Deliveries made later end up later in the buffer: the buffer keeps arrival order. */
  lemma {:induction false} KeptAppend(ds: seq<Option<Chunk>>, es: seq<Option<Chunk>>)
    ensures Kept(ds + es) == Kept(ds) + Kept(es)
  {
    if es != [] {
      var es' := es[..|es| - 1];
      assert (ds + es)[..|ds + es| - 1] == ds + es';
      KeptAppend(ds, es');
    } else {
      assert ds + es == ds;
    }
  }

  /**
   * Dropping empty chunks never changes the finished file: the blob built
   * from the buffer has exactly the bytes of all delivered chunks, in order.
   */
  lemma {:induction false} DroppingEmptyKeepsBytes(ds: seq<Option<Chunk>>)
    ensures Concat(Kept(ds)) == Concat(Present(ds))
  {
    if ds != [] {
      var ds' := ds[..|ds| - 1];
      var last := ds[|ds| - 1];
      DroppingEmptyKeepsBytes(ds');
      if last.Some? {
        ConcatAppend(Present(ds'), [last.value]);
        assert Concat([last.value]) == last.value by {
          assert [last.value][..0] == [];
        }
        if Keeps(last) {
          ConcatAppend(Kept(ds'), [last.value]);
        } else {
          assert last.value == [];
        }
      }
    }
  }

  /** Chunks of sizes 0, 120 and 80 arriving in that order make a file of the last two, in order. */
  lemma KeptExample(c1: Chunk, c2: Chunk, c3: Chunk)
    requires |c1| == 0 && |c2| == 120 && |c3| == 80
    ensures Kept([Some(c1), Some(c2), Some(c3)]) == [c2, c3]
    ensures Concat(Kept([Some(c1), Some(c2), Some(c3)])) == c2 + c3
  {
    var ds := [Some(c1), Some(c2), Some(c3)];
    assert ds[..2][..1] == [Some(c1)];
    assert ds[..2] == [Some(c1), Some(c2)];
    assert Kept([Some(c1)]) == [] by {
      assert [Some(c1)][..0] == [];
    }
    assert Kept(ds) == [c2, c3];
    assert [c2, c3][..1] == [c2];
    assert Concat([c2]) == c2 by {
      assert [c2][..0] == [];
    }
  }

  // ---------------------------------------------------------------------------
  // The generateVideo lifecycle

  /** The status labels of the page. */
  datatype Status = Idle | Recording | Finalizing | Done

  function Label(s: Status): string
  {
    match s
    case Idle => "Idle"
    case Recording => "Recording video..."
    case Finalizing => "Finalizing..."
    case Done => "Done"
  }

  /** The MediaRecorder of the current session: none yet, recording, stop() called, or stopped. */
  datatype RecorderState = NoRecorder | Active | Stopping | Inactive

  /**
   * The page's capture state: the React state (isGenerating, status,
   * videoUrl), the live object URLs, and the current recorder with its
   * chunk buffer and MIME type.
   */
  class VideoGenerator {
    var isGenerating: bool
    var status: Status
    var videoUrl: Option<Url>
    /** Object URLs created and not yet revoked, with the blob each one refers to. */
    var objectUrls: map<Url, Blob>
    /** The next URL createObjectURL hands out; every URL handed out so far is below it. */
    var nextUrl: nat
    var recorder: RecorderState
    var mimeType: string
    var chunks: seq<Chunk>
    /** Everything the recorder has delivered to ondataavailable in this session. */
    ghost var delivered: seq<Option<Chunk>>

    ghost predicate Valid()
      reads this
    {
      BufferValid() && UrlsValid() && LifecycleValid()
    }

    /** The buffer holds exactly the kept deliveries, in arrival order. */
    ghost predicate BufferValid()
      reads this`chunks, this`delivered
    {
      chunks == Kept(delivered)
    }

    /** Every live URL was handed out before, and the only live URL is the one on show. */
    ghost predicate UrlsValid()
      reads this`objectUrls, this`nextUrl, this`videoUrl
    {
      && (forall u :: u in objectUrls ==> u < nextUrl)
      && objectUrls.Keys == (if videoUrl.Some? then {videoUrl.value} else {})
    }

    /** The status label agrees with the rest of the state. */
    ghost predicate LifecycleValid()
      reads this
    {
      && (recorder != NoRecorder ==> mimeType == Vp9 || mimeType == Vp8 || mimeType == PlainWebm)
      && match status
         case Idle => !isGenerating && videoUrl.None? && recorder == NoRecorder
         case Recording => isGenerating && videoUrl.None? && recorder == Active
         case Finalizing => isGenerating && videoUrl.None? && recorder == Stopping
         case Done =>
           && !isGenerating && videoUrl.Some? && recorder == Inactive
           && videoUrl.value in objectUrls
           && objectUrls[videoUrl.value] == Blob(mimeType, Concat(chunks))
    }

    /** The page's initial state: not generating, status Idle, no video. */
    constructor ()
      ensures Valid()
      ensures status == Idle && Label(status) == "Idle" && !isGenerating && videoUrl.None? && objectUrls == map[]
    {
      isGenerating, status, videoUrl := false, Idle, None;
      objectUrls, nextUrl := map[], 0;
      recorder, mimeType := NoRecorder, PlainWebm;
      chunks, delivered := [], [];
    }

    /**
     * The synchronous part of generateVideo, up to recorder.start(). Without
     * a renderer it changes nothing. Otherwise it starts a session: the
     * previous video URL is revoked and cleared, the buffer is empty and the
     * recorder runs with the chosen MIME type. The trigger button is disabled
     * while generating, so callers only invoke it when not generating.
     */
    method GenerateVideo(hasRenderer: bool, isTypeSupported: string -> bool)
      requires Valid() && !isGenerating
      modifies this
      ensures Valid()
      ensures !hasRenderer ==> unchanged(this)
      ensures hasRenderer ==>
        && status == Recording && Label(status) == "Recording video..."
        && isGenerating && videoUrl.None?
        && (old(videoUrl).Some? ==> old(videoUrl).value !in objectUrls)
        && objectUrls == map[] && nextUrl == old(nextUrl)
        && recorder == Active && mimeType == ChooseMimeType(isTypeSupported)
        && chunks == [] && delivered == []
    {
      if !hasRenderer {
        return;
      }
      isGenerating := true;
      status := Recording;
      if videoUrl.Some? {
        objectUrls := objectUrls - {videoUrl.value};
      }
      videoUrl := None;
      chunks, delivered := [], [];
      mimeType := ChooseMimeType(isTypeSupported);
      recorder := Active;
    }

    /** recorder.ondataavailable: keep the chunk iff it is present and non-empty. */
    method OnDataAvailable(data: Option<Chunk>)
      requires Valid() && (recorder == Active || recorder == Stopping)
      modifies this`chunks, this`delivered
      ensures Valid()
      ensures delivered == old(delivered) + [data]
      ensures chunks == if Keeps(data) then old(chunks) + [data.value] else old(chunks)
    {
      if data.Some? && |data.value| > 0 {
        chunks := chunks + [data.value];
      }
      KeptSnoc(delivered, data);
      delivered := delivered + [data];
    }

    /** The end of the 7 s wait: recorder.stop(), then status Finalizing... */
    method StopRecording()
      requires Valid() && status == Recording
      modifies this`recorder, this`status
      ensures Valid()
      ensures recorder == Stopping && status == Finalizing && Label(status) == "Finalizing..."
    {
      recorder := Stopping;
      status := Finalizing;
    }

    /**
     * recorder.onstop: build the blob from the buffer in arrival order,
     * tagged with the session's MIME type, publish it under a new object
     * URL, set status Done and stop generating.
     */
    method OnStop()
      requires Valid() && recorder == Stopping
      modifies this`objectUrls, this`nextUrl, this`videoUrl, this`status, this`isGenerating, this`recorder
      ensures Valid()
      ensures status == Done && Label(status) == "Done" && !isGenerating && recorder == Inactive
      ensures videoUrl == Some(old(nextUrl)) && old(nextUrl) !in old(objectUrls)
      ensures objectUrls == map[old(nextUrl) := Blob(mimeType, Concat(Kept(delivered)))]
    {
      var blob := Blob(mimeType, Concat(chunks));
      var url := nextUrl;
      nextUrl := nextUrl + 1;
      objectUrls := objectUrls[url := blob];
      videoUrl := Some(url);
      status := Done;
      isGenerating := false;
      recorder := Inactive;
    }
  }

  /**
   * One complete capture on the page: start, three deliveries of sizes 0,
   * 120 and 80, the stop at the end of the wait, and the recorder's onstop.
   */
  method CaptureThree(page: VideoGenerator, isTypeSupported: string -> bool, c1: Chunk, c2: Chunk, c3: Chunk)
    returns (url: Url)
    requires page.Valid() && !page.isGenerating
    requires |c1| == 0 && |c2| == 120 && |c3| == 80
    modifies page
    ensures page.Valid() && page.status == Done
    ensures url == old(page.nextUrl) && page.videoUrl == Some(url)
    ensures page.objectUrls == map[url := Blob(ChooseMimeType(isTypeSupported), c2 + c3)]
  {
    KeptExample(c1, c2, c3);
    ghost var n0 := page.nextUrl;
    page.GenerateVideo(true, isTypeSupported);
    ghost var mime := page.mimeType;
    assert mime == ChooseMimeType(isTypeSupported) && page.delivered == [];
    page.OnDataAvailable(Some(c1));
    page.OnDataAvailable(Some(c2));
    page.OnDataAvailable(Some(c3));
    assert page.delivered == [Some(c1), Some(c2), Some(c3)];
    assert page.mimeType == mime && page.nextUrl == n0;
    page.StopRecording();
    page.OnStop();
    assert page.objectUrls == map[n0 := Blob(mime, c2 + c3)];
    url := page.videoUrl.value;
  }

  /**
   * Two captures in a row: the first records chunks of sizes 0, 120 and 80
   * and yields a file of the last two; starting the second revokes the
   * first URL, and the second file gets a URL of its own.
   */
  method TwoCaptures(isTypeSupported: string -> bool, c1: Chunk, c2: Chunk, c3: Chunk)
    returns (first: Blob, firstUrl: Url, firstRevoked: bool, secondUrl: Url)
    requires |c1| == 0 && |c2| == 120 && |c3| == 80
    ensures first == Blob(ChooseMimeType(isTypeSupported), c2 + c3)
    ensures firstRevoked
    ensures secondUrl != firstUrl
  {
    var page := new VideoGenerator();
    firstUrl := CaptureThree(page, isTypeSupported, c1, c2, c3);
    first := page.objectUrls[firstUrl];

    page.GenerateVideo(true, isTypeSupported);
    firstRevoked := firstUrl !in page.objectUrls;
    page.StopRecording();
    page.OnStop();
    secondUrl := page.videoUrl.value;
  }
}
