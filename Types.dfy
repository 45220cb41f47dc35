/**
 * The records and enumerations shared by the trimmer's components (types.ts).
 */
module Types {

  /** A selection of the source video in seconds (types.ts, `TrimRange`). */
  datatype TrimRange = TrimRange(start: real, end: real)

  /** The application's phase (types.ts, `AppStatus`). */
  datatype AppStatus = Idle | Loading | Editing | Exporting | Finished

  /** The two encoder profiles the export menu offers (types.ts, `OutputFormat`). */
  datatype OutputFormat = Vp9 | Vp8
  {
    /** The MediaRecorder mime type string of the profile. */
    function MimeType(): string
    {
      match this
      case Vp9 => "video/webm;codecs=vp9"
      case Vp8 => "video/webm;codecs=vp8"
    }

    /** The label shown for the profile in the export menu. */
    function Label(): string
    {
      match this
      case Vp9 => "WebM (VP9)"
      case Vp8 => "WebM (VP8)"
    }
  }

  /** The menu tells the two profiles apart: each label names one profile. */
  lemma LabelsDistinct(f: OutputFormat, g: OutputFormat)
    ensures f.Label() == g.Label() <==> f == g
  {
  }

  /** The file the user picked; only its name is observable to the app. */
  datatype SourceFile = SourceFile(name: string)

  /** A loaded video with the metadata the browser probed (types.ts, `VideoFile`). */
  datatype VideoFile = VideoFile(file: SourceFile, url: string, duration: real, width: int, height: int)

  /** One byte of encoded media. */
  type Byte = bv8

  /** A binary object with a mime type; recorder chunks and the exported clip are both blobs. */
  datatype Blob = Blob(bytes: seq<Byte>, mimeType: string)
}
