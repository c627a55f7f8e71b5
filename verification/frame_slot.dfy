/** The frame buffer slots behind the video and thermal image elements:
    `updateImageFromBuffer`, `resetImageState` and the `load` listeners,
    over the browser's object-URL registry. */
module FrameSlot {
  import opened Options

  /** The bytes of one JPEG frame as the socket delivers them. */
  type Frame = seq<bv8>

  /** An object URL, by the order in which the registry created it. */
  type Handle = nat

  /** What an image element's `src` points at: nothing (""), an object URL,
      or an MJPEG stream URL. */
  datatype Src = NoSrc | BlobSrc(handle: Handle) | StreamSrc(url: string)

  /** The handle a reset or a new frame gives up, as a multiset of revocations. */
  function Released(u: Option<Handle>): (m: multiset<Handle>)
    ensures |m| == (if u.Some? then 1 else 0)
    ensures u.Some? ==> m[u.value] == 1
  {
    if u.Some? then multiset{u.value} else multiset{}
  }

  /** The browser's object-URL registry (`URL.createObjectURL` and
      `URL.revokeObjectURL`): the blob behind each URL ever created, and
      how many times each URL has been revoked. */
  class ObjectUrls {
    var blobs: seq<Frame>
    ghost var revoked: multiset<Handle>

    constructor ()
      ensures blobs == [] && revoked == multiset{}
    {
      blobs := [];
      revoked := multiset{};
    }

    /** A URL no earlier call returned, for a blob holding `data`. */
    method CreateObjectUrl(data: Frame) returns (h: Handle)
      modifies this
      ensures h == |old(blobs)| && blobs == old(blobs) + [data]
      ensures revoked == old(revoked)
    {
      h := |blobs|;
      blobs := blobs + [data];
    }

    method RevokeObjectUrl(h: Handle)
      modifies this
      ensures blobs == old(blobs)
      ensures revoked == old(revoked) + multiset{h}
    {
      revoked := revoked + multiset{h};
    }
  }

  /** One `{pending, currentUrl}` record together with the image element it
      feeds (absent for a page without a thermal view). `installed` holds
      every URL the slot ever put in `currentUrl`; `revokes` logs each
      revocation with what the element showed at that moment. */
  class ImageSlot {
    const hasElement: bool
    var pending: bool
    var currentUrl: Option<Handle>
    var src: Src
    ghost var installed: set<Handle>
    ghost var revokes: seq<(Handle, Src)>

    /** Each URL the slot let go of is revoked exactly once, the live one
        never; every revoked URL was created; the element shows no object
        URL but the live one. */
    ghost predicate Valid(urls: ObjectUrls)
      reads this, urls
    {
      && (forall h :: h in urls.revoked ==> h < |urls.blobs|)
      && (forall h :: h in installed ==> h < |urls.blobs|)
      && (currentUrl.Some? ==> currentUrl.value in installed && urls.revoked[currentUrl.value] == 0)
      && (forall h :: h in installed && currentUrl != Some(h) ==> urls.revoked[h] == 1)
      && (src.BlobSrc? ==> currentUrl == Some(src.handle))
      && (!hasElement ==> src == NoSrc)
    }

    /** `other` is the second slot over the same registry: the two never
        share a URL, and `other` stays valid while this slot works. */
    ghost predicate Partners(other: ImageSlot, urls: ObjectUrls)
      reads this, other, urls
    {
      other != this && other.Valid(urls) && installed !! other.installed
    }

    constructor (hasElement: bool)
      ensures this.hasElement == hasElement
      ensures !pending && currentUrl == None && src == NoSrc
      ensures installed == {} && revokes == []
    {
      this.hasElement := hasElement;
      pending := false;
      currentUrl := None;
      src := NoSrc;
      installed := {};
      revokes := [];
    }

    /** `updateImageFromBuffer`: while a frame is still loading the new one
        is dropped; otherwise it is installed. */
    method Offer(urls: ObjectUrls, data: Frame, ghost other: ImageSlot)
      requires hasElement && Valid(urls)
      requires Partners(other, urls)
      modifies this, urls
      ensures Valid(urls) && Partners(other, urls)
      ensures old(pending) ==> unchanged(this) && unchanged(urls)
      ensures !old(pending) ==>
        var h := |old(urls.blobs)|;
        && urls.blobs == old(urls.blobs) + [data]
        && pending && currentUrl == Some(h) && src == BlobSrc(h)
        && installed == old(installed) + {h}
        && urls.revoked == old(urls.revoked) + Released(old(currentUrl))
        && revokes == old(revokes) + (if old(currentUrl).Some? then [(old(currentUrl).value, BlobSrc(h))] else [])
    {
      if !pending {
        Install(urls, data, other);
      }
    }

    /** A fresh URL for `data` is shown and marked pending, and only then is
        the previous URL revoked. */
    method Install(urls: ObjectUrls, data: Frame, ghost other: ImageSlot)
      requires hasElement && Valid(urls)
      requires Partners(other, urls)
      modifies this, urls
      ensures Valid(urls) && Partners(other, urls)
      ensures var h := |old(urls.blobs)|;
        && urls.blobs == old(urls.blobs) + [data]
        && pending && currentUrl == Some(h) && src == BlobSrc(h)
        && installed == old(installed) + {h}
        && urls.revoked == old(urls.revoked) + Released(old(currentUrl))
        && revokes == old(revokes) + (if old(currentUrl).Some? then [(old(currentUrl).value, BlobSrc(h))] else [])
    {
      var next := urls.CreateObjectUrl(data);
      pending := true;
      src := BlobSrc(next);
      if currentUrl.Some? {
        revokes := revokes + [(currentUrl.value, src)];
        urls.RevokeObjectUrl(currentUrl.value);
      }
      currentUrl := Some(next);
      installed := installed + {next};
    }

    /** `resetImageState`: the live URL is revoked (while the element still
        shows it), then the record and the element are cleared. */
    method Reset(urls: ObjectUrls, ghost other: ImageSlot)
      requires Valid(urls) && Partners(other, urls)
      modifies this, urls
      ensures Valid(urls) && Partners(other, urls)
      ensures !pending && currentUrl == None && src == NoSrc
      ensures installed == old(installed)
      ensures urls.blobs == old(urls.blobs)
      ensures urls.revoked == old(urls.revoked) + Released(old(currentUrl))
      ensures revokes == old(revokes) + (if old(currentUrl).Some? then [(old(currentUrl).value, old(src))] else [])
    {
      pending := false;
      if currentUrl.Some? {
        revokes := revokes + [(currentUrl.value, src)];
        urls.RevokeObjectUrl(currentUrl.value);
      }
      currentUrl := None;
      if hasElement {
        src := NoSrc;
      }
    }

    /** The element's `load` listener: the pending frame has been shown. */
    method MarkDisplayed(ghost urls: ObjectUrls)
      requires Valid(urls)
      modifies this
      ensures Valid(urls)
      ensures !pending
      ensures currentUrl == old(currentUrl) && src == old(src)
      ensures installed == old(installed) && revokes == old(revokes)
    {
      pending := false;
    }

    /** `connectSockets` in MJPEG mode: the element streams from `url` and
        the record is cleared by hand, without a revoke. This happens only
        right after `disconnectSockets` reset the slot, so no URL is live. */
    method ShowStream(ghost urls: ObjectUrls, url: string)
      requires hasElement && Valid(urls) && currentUrl.None?
      modifies this
      ensures Valid(urls)
      ensures !pending && currentUrl == None && src == StreamSrc(url)
      ensures installed == old(installed) && revokes == old(revokes)
    {
      src := StreamSrc(url);
      pending := false;
      currentUrl := None;
    }
  }
}
