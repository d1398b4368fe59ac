/** Fetching the two side-files of a release: the URL and local name built
    by `dlUpdateFile`, the status rule of `dlFile`, and the `Promise.all`
    that waits for both downloads. */
module Fetch {
  import opened Optional

  /** The release-download prefix of the project's GitHub repository. */
  const BaseUrl: string := "http://github.com/meriadec/secure-update/releases/download"
  /** Suffix of the checksum side-file. */
  const ChecksumSuffix: string := ".sha512sum"
  /** Suffix of the detached-signature side-file. */
  const SignatureSuffix: string := ".sha512sum.sig"

  /** What the HTTP client reports once redirects have been followed. */
  datatype Response = Response(statusCode: int, statusMessage: string, body: string)

  /** How one `dlFile` promise settles: resolved with the saved file (given
      here by its content), or rejected with an error message. */
  datatype Download = Saved(content: string) | Rejected(message: string)

  /** `dlFile`: only status 200 saves the body; every other status rejects
      with the server's status text. */
  function DlFile(response: Response): (d: Download)
    ensures d.Saved? <==> response.statusCode == 200
    ensures d.Saved? ==> d.content == response.body
    ensures d.Rejected? ==> d.message == response.statusMessage
  {
    if response.statusCode != 200 then Rejected(response.statusMessage)
    else Saved(response.body)
  }

  /** A side-file request: where it is fetched from and the name it is saved
      under in the update folder. */
  datatype SideFileRequest = SideFileRequest(url: string, fileName: string)

  /** The directory of one release on the download server. */
  function ReleaseUrl(version: string): string
  {
    BaseUrl + "/v" + version + "/"
  }

  /** `dlUpdateFile`: the side-file is named after the staged binary plus the
      suffix, and is fetched from the release directory of `version`. */
  function DlUpdateFile(originalFileName: string, version: string, suffix: string): (req: SideFileRequest)
    ensures req.fileName == originalFileName + suffix
    ensures req.url == BaseUrl + "/v" + version + "/" + originalFileName + suffix
    ensures req.url == ReleaseUrl(version) + req.fileName
  {
    var fileName := originalFileName + suffix;
    SideFileRequest(ReleaseUrl(version) + fileName, fileName)
  }

  /** Recovers the side-file name from a URL of the release directory of
      `version`; None for a URL outside it. */
  function SideFileNameOf(url: string, version: string): (name: Option<string>)
    ensures name.Some? ==> url == ReleaseUrl(version) + name.value
  {
    var dir := ReleaseUrl(version);
    if dir <= url then Some(url[|dir|..]) else None
  }

  /** The URL of a side-file names exactly the file it is saved as. */
  lemma SideFileNameOfUrl(originalFileName: string, version: string, suffix: string)
    ensures var req := DlUpdateFile(originalFileName, version, suffix);
            SideFileNameOf(req.url, version) == Some(req.fileName)
  {
  }

  /** For one release and one suffix, different staged binaries never share
      a side-file URL. */
  lemma SideFileUrlInjective(f: string, g: string, version: string, suffix: string)
    requires DlUpdateFile(f, version, suffix).url == DlUpdateFile(g, version, suffix).url
    ensures f == g
  {
    SideFileNameOfUrl(f, version, suffix);
    SideFileNameOfUrl(g, version, suffix);
    assert f == (f + suffix)[..|f|] && g == (g + suffix)[..|g|];
  }

  /** The checksum and signature requests of one binary and one release are
      distinct, and the signature file is the checksum file plus `.sig`. */
  lemma SideFilesDistinct(originalFileName: string, version: string)
    ensures var sum := DlUpdateFile(originalFileName, version, ChecksumSuffix);
            var sig := DlUpdateFile(originalFileName, version, SignatureSuffix);
            sig.fileName == sum.fileName + ".sig" && sig.url == sum.url + ".sig"
            && sum.fileName != sig.fileName && sum.url != sig.url
  {
  }

  /** Which of the two side-file downloads settles first; it decides the
      message when both fail. */
  datatype Side = ChecksumFirst | SignatureFirst

  /** The settled `Promise.all([dl(checksum), dl(signature)])`: both
      contents, or the rejection that came first. */
  datatype SideFiles = Both(sumContent: string, sigContent: string) | Failed(message: string)

  /** `Promise.all` over the two downloads: it resolves only when both are
      saved, and rejects with the message of the first download to fail. */
  function AwaitBoth(sum: Download, sig: Download, first: Side): (r: SideFiles)
    ensures r.Both? <==> sum.Saved? && sig.Saved?
    ensures r.Both? ==> r.sumContent == sum.content && r.sigContent == sig.content
    ensures r.Failed? ==> (sum.Rejected? && r.message == sum.message)
                          || (sig.Rejected? && r.message == sig.message)
    ensures sum.Rejected? && sig.Saved? ==> r == Failed(sum.message)
    ensures sum.Saved? && sig.Rejected? ==> r == Failed(sig.message)
  {
    match (sum, sig)
    case (Saved(s), Saved(g)) => Both(s, g)
    case (Rejected(m), Saved(_)) => Failed(m)
    case (Saved(_), Rejected(m)) => Failed(m)
    case (Rejected(m), Rejected(n)) => if first == ChecksumFirst then Failed(m) else Failed(n)
  }
}
