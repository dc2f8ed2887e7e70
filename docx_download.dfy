/**
 * The DOCX export as a whole: the name the export route puts in its
 * Content-Disposition header, and the name the text artifact's download
 * action reads back from that header.
 */
module DocxDownload {
  import opened Wrappers
  import opened JsText
  import opened DocumentToDocx
  import opened TextArtifact

  /**
   * A clean title with a `;` in it, such as "a;b", is exported under its own
   * name plus ".docx" and downloaded as the part before the `;` alone: the
   * name loses its end and its extension.
   */
  lemma {:induction false} SemicolonTitleTruncated(head: string, tail: string)
    requires head != [] && CleanName(head) && Lacks(head, ';') && CleanName(tail)
    requires |head| + |tail| <= 114
    ensures SanitizeDocxFilename(head + ";" + tail) == head + ";" + tail + ".docx"
    ensures DownloadName(Some(ExportDisposition(SanitizeDocxFilename(head + ";" + tail)))) == head
  {
    var t := head + ";" + tail;
    CleanAroundSemicolon(head, tail);
    SanitizeKeepsCleanStem(t);
    var rest := tail + ".docx";
    assert t + ".docx" == head + ";" + rest;
    DownloadStopsAtSemicolon(head, rest);
  }

  /** A clean head and tail joined by `;` make a clean name, whose head no download delimiter cuts. */
  lemma CleanAroundSemicolon(head: string, tail: string)
    requires CleanName(head) && Lacks(head, ';') && CleanName(tail)
    ensures CleanName(head + ";" + tail)
    ensures forall i :: 0 <= i < |head| ==> !StopsFilename(head[i])
  {
    var t := head + ";" + tail;
    forall i | 0 <= i < |t| ensures !ForbiddenInFilename(t[i]) && !IsWhitespace(t[i]) {
      if i < |head| {
        assert t[i] == head[i];
      } else if i > |head| {
        assert t[i] == tail[i - |head| - 1];
      }
    }
  }

  /** With semicolons replaced as well, every title's exported name is the name downloaded. */
  lemma SafeNameRoundTrip(title: string)
    ensures DownloadName(Some(ExportDisposition(SafeDocxFilename(title)))) == SafeDocxFilename(title)
  {
    var name := SafeDocxFilename(title);
    SafeNameHasNoDelimiters(title);
    RoundTripWithoutDelimiters(name);
  }

  lemma RoundTripWithoutDelimiters(name: string)
    requires name != [] && Lacks(name, '"') && Lacks(name, ';') && Lacks(name, '\n')
    ensures DownloadName(Some(ExportDisposition(name))) == name
  {
    assert forall i :: 0 <= i < |name| ==> !StopsFilename(name[i]);
    DownloadNameRoundTrip(name);
  }

  /** For a title without `;` the corrected sanitizer names the file exactly as the written one does. */
  lemma SafeNameAgrees(title: string)
    requires Lacks(title, ';')
    ensures SafeDocxFilename(title) == SanitizeDocxFilename(title)
  {
    assert ReplaceSemicolons(title) == title;
  }
}
