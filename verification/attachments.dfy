/**
 * The inline-data parts built from the optional `data` record of the request
 * body: first the image/media part, then the audio part, each only when its
 * payload is a non-empty string (JavaScript truthiness).
 */
module Attachments {

  import opened Wrappers
  import opened ChatTypes

  /** JavaScript truthiness of an optional string: present and non-empty. */
  predicate Truthy(s: Option<string>)
  {
    s.Some? && s.value != ""
  }

  /** `s || ""`: the string itself when it is truthy, the empty string otherwise. */
  function OrEmpty(s: Option<string>): string
  {
    if Truthy(s) then s.value else ""
  }

  predicate HasMedia(data: Option<RequestData>)
  {
    data.Some? && Truthy(data.value.media)
  }

  predicate HasAudio(data: Option<RequestData>)
  {
    data.Some? && Truthy(data.value.audio)
  }

  /** The attachment parts of a request, as the handler assembles them. */
  function AttachmentParts(data: Option<RequestData>): (parts: seq<Part>)
    ensures |parts| == (if HasMedia(data) then 1 else 0) + (if HasAudio(data) then 1 else 0)
    ensures forall p :: p in parts ==> p.InlineData?
    ensures HasMedia(data) ==>
      parts[0] == InlineData(if Truthy(data.value.mediaTypes) then data.value.mediaTypes.value else "",
                             data.value.media.value)
    ensures HasAudio(data) ==>
      parts[|parts| - 1] == InlineData(AudioMimeType, data.value.audio.value)
  {
    (if HasMedia(data) then [InlineData(OrEmpty(data.value.mediaTypes), data.value.media.value)] else [])
    + (if HasAudio(data) then [InlineData(AudioMimeType, data.value.audio.value)] else [])
  }

  /** Builds the parts by conditional pushes onto an initially empty list. */
  method CollectAttachmentParts(data: Option<RequestData>) returns (parts: seq<Part>)
    ensures parts == AttachmentParts(data)
  {
    parts := [];
    if data.Some? && Truthy(data.value.media) {
      parts := parts + [InlineData(OrEmpty(data.value.mediaTypes), data.value.media.value)];
    }
    if data.Some? && Truthy(data.value.audio) {
      parts := parts + [InlineData(AudioMimeType, data.value.audio.value)];
    }
  }
}
