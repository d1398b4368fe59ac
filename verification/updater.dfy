/** The decision chain of `verify`: read the update manifest, download the
    checksum and signature side-files of the release, check the OpenPGP
    signature over the checksum text, then compare the digest it names with
    the digest of the staged binary. Every effect the chain depends on is an
    input here (see Environment), so `verify` is a total function from those
    inputs to the way its promise settles. */
module Updater {
  import opened Optional
  import opened Text
  import opened Fetch
  import opened Signature

  /** What the world answers to each step of one verification attempt. */
  datatype Environment = Environment(
    /** The `fileName` of `update-info.json` in the update folder; None when
        the folder or the file cannot be read, the JSON does not parse, or
        it has no string `fileName`. */
    binaryFileName: Option<string>,
    /** The response the server gives to a GET of each URL. */
    fetch: string -> Response,
    /** Which of the two side-file downloads settles first. */
    firstSettled: Side,
    /** OpenPGP reading the armored signature and verifying it, with the
        bundled public key, over the checksum text: one validity per
        signature found, or None when the library throws. */
    pgpVerify: (string, string) -> Option<seq<bool>>,
    /** The hex SHA-512 of the staged file of the given name, or None when
        it cannot be read. */
    hashFile: string -> Option<string>)

  /** The file whose absence ended the attempt. */
  datatype Artifact = UpdateInfo | Binary

  /** How the promise returned by `verify` settles: resolved with `true`
      (Ok), or rejected for one of the reasons below. */
  datatype Outcome =
    | Ok
    | ArtifactMissing(artifact: Artifact)
    | DownloadFailed(message: string)
    | SignatureUnreadable
    | SignatureInvalid   // "PGP SIGNATURE CHECK FAILED"
    | ChecksumMismatch   // "CHECKSUM MISMATCH"

  /** The side-file of the staged binary `name` for `version` with `suffix`,
      as the server answers for it. */
  function SideFileResponse(version: string, env: Environment, name: string, suffix: string): Response
  {
    env.fetch(DlUpdateFile(name, version, suffix).url)
  }

  /** Both side-file downloads, joined as `Promise.all` joins them: the two
      served bodies exactly when both side-files were served with status 200. */
  function SideFilesOf(version: string, env: Environment, name: string): (files: SideFiles)
    ensures files.Both? <==> DownloadsSucceed(version, env, name)
    ensures files.Both? ==>
              files == Both(SideFileResponse(version, env, name, ChecksumSuffix).body,
                            SideFileResponse(version, env, name, SignatureSuffix).body)
  {
    AwaitBoth(DlFile(SideFileResponse(version, env, name, ChecksumSuffix)),
              DlFile(SideFileResponse(version, env, name, SignatureSuffix)),
              env.firstSettled)
  }

  /** `verify(version)`: manifest, downloads, signature, digest, in that
      order; the first step that fails decides the outcome. */
  function Verify(version: string, env: Environment): (o: Outcome)
    ensures o == ArtifactMissing(UpdateInfo) <==> env.binaryFileName.None?
  {
    match env.binaryFileName
    case None => ArtifactMissing(UpdateInfo)
    case Some(name) =>
      match SideFilesOf(version, env, name)
      case Failed(message) => DownloadFailed(message)
      case Both(sumContent, sigContent) =>
        match env.pgpVerify(sigContent, sumContent)
        case None => SignatureUnreadable
        case Some(validities) =>
          if !SignatureCheckPasses(validities) then SignatureInvalid
          else
            var expectedSum := ExpectedSum(sumContent);
            match env.hashFile(name)
            case None => ArtifactMissing(Binary)
            case Some(actualSum) =>
              if expectedSum != actualSum then ChecksumMismatch else Ok
  }

  /** Both side-files were served with status 200. */
  predicate DownloadsSucceed(version: string, env: Environment, name: string)
  {
    SideFileResponse(version, env, name, ChecksumSuffix).statusCode == 200
    && SideFileResponse(version, env, name, SignatureSuffix).statusCode == 200
  }

  /** The signature results OpenPGP reports for the served side-files. */
  function ServedSignatures(version: string, env: Environment, name: string): Option<seq<bool>>
  {
    env.pgpVerify(SideFileResponse(version, env, name, SignatureSuffix).body,
                  SideFileResponse(version, env, name, ChecksumSuffix).body)
  }

  /** The digest named by the served checksum file. */
  function ServedExpectedSum(version: string, env: Environment, name: string): string
  {
    ExpectedSum(SideFileResponse(version, env, name, ChecksumSuffix).body)
  }

  /** `verify` resolves exactly when the manifest names a binary, both
      side-files download with status 200, OpenPGP reports at least one
      signature and all of them valid, and the binary's digest equals,
      character for character, the first token of the signed checksum text.
      That digest is then a prefix of the signed text free of spaces and
      newlines. */
  lemma VerifyOkIff(version: string, env: Environment)
    ensures Verify(version, env) == Ok <==>
      && env.binaryFileName.Some?
      && DownloadsSucceed(version, env, env.binaryFileName.value)
      && ServedSignatures(version, env, env.binaryFileName.value).Some?
      && SignatureCheckPasses(ServedSignatures(version, env, env.binaryFileName.value).value)
      && env.hashFile(env.binaryFileName.value)
         == Some(ServedExpectedSum(version, env, env.binaryFileName.value))
    ensures Verify(version, env) == Ok ==>
      var name := env.binaryFileName.value;
      var digest := env.hashFile(name).value;
      && digest <= SideFileResponse(version, env, name, ChecksumSuffix).body
      && ' ' !in digest && '\n' !in digest
  {
  }

  /** Pipeline order: a failure at a later step means every earlier step
      passed. A signature failure comes after both downloads succeeded; a
      missing binary or a checksum mismatch after the signature gate passed. */
  lemma LaterFailureAfterEarlierSteps(version: string, env: Environment)
    ensures var o := Verify(version, env);
            o == SignatureUnreadable || o == SignatureInvalid
            || o == ArtifactMissing(Binary) || o == ChecksumMismatch
            ==> env.binaryFileName.Some?
                && DownloadsSucceed(version, env, env.binaryFileName.value)
    ensures var o := Verify(version, env);
            o == SignatureInvalid || o == ArtifactMissing(Binary) || o == ChecksumMismatch
            ==> env.binaryFileName.Some?
                && ServedSignatures(version, env, env.binaryFileName.value).Some?
    ensures var o := Verify(version, env);
            o == SignatureUnreadable
            <==> env.binaryFileName.Some?
                 && DownloadsSucceed(version, env, env.binaryFileName.value)
                 && ServedSignatures(version, env, env.binaryFileName.value).None?
    ensures var o := Verify(version, env);
            o == ArtifactMissing(Binary) || o == ChecksumMismatch
            ==> SignatureCheckPasses(ServedSignatures(version, env, env.binaryFileName.value).value)
    ensures Verify(version, env) == SignatureInvalid ==>
              !SignatureCheckPasses(ServedSignatures(version, env, env.binaryFileName.value).value)
    ensures Verify(version, env) == ChecksumMismatch ==>
              && env.hashFile(env.binaryFileName.value).Some?
              && env.hashFile(env.binaryFileName.value).value
                 != ServedExpectedSum(version, env, env.binaryFileName.value)
    ensures var o := Verify(version, env);
            o == ArtifactMissing(Binary)
            <==> env.binaryFileName.Some?
                 && DownloadsSucceed(version, env, env.binaryFileName.value)
                 && ServedSignatures(version, env, env.binaryFileName.value).Some?
                 && SignatureCheckPasses(ServedSignatures(version, env, env.binaryFileName.value).value)
                 && env.hashFile(env.binaryFileName.value).None?
  {
  }

  /** A missing manifest fails the attempt before any download, so the
      network, the signature and the binary play no part. */
  lemma ManifestFirst(version: string, env: Environment, other: Environment)
    requires env.binaryFileName.None?
    requires other.binaryFileName.None?
    ensures Verify(version, env) == Verify(version, other) == ArtifactMissing(UpdateInfo)
  {
  }

  /** `verify` reads the network only at the checksum and signature URLs of
      the staged binary for the requested version. */
  lemma VerifyFetchesOnlySideFiles(version: string, env: Environment, fetch: string -> Response)
    requires env.binaryFileName.Some?
    requires var name := env.binaryFileName.value;
             && fetch(DlUpdateFile(name, version, ChecksumSuffix).url)
                == env.fetch(DlUpdateFile(name, version, ChecksumSuffix).url)
             && fetch(DlUpdateFile(name, version, SignatureSuffix).url)
                == env.fetch(DlUpdateFile(name, version, SignatureSuffix).url)
    ensures Verify(version, env.(fetch := fetch)) == Verify(version, env)
  {
  }

  /** A side-file served with any status but 200 fails `verify` with a
      download error carrying the status text of a failed side-file; when
      only one of them failed, it is that one's text. */
  lemma DownloadFailureFails(version: string, env: Environment)
    requires env.binaryFileName.Some?
    requires !DownloadsSucceed(version, env, env.binaryFileName.value)
    ensures var name := env.binaryFileName.value;
            var sum := SideFileResponse(version, env, name, ChecksumSuffix);
            var sig := SideFileResponse(version, env, name, SignatureSuffix);
            && Verify(version, env).DownloadFailed?
            && (|| (sum.statusCode != 200 && Verify(version, env).message == sum.statusMessage)
                || (sig.statusCode != 200 && Verify(version, env).message == sig.statusMessage))
            && (sig.statusCode == 200 ==> Verify(version, env) == DownloadFailed(sum.statusMessage))
            && (sum.statusCode == 200 ==> Verify(version, env) == DownloadFailed(sig.statusMessage))
  {
  }

  /** `verify` fails with a download error only when a side-file was served
      with a status other than 200. */
  lemma DownloadFailedOnlyOnBadStatus(version: string, env: Environment)
    requires Verify(version, env).DownloadFailed?
    ensures env.binaryFileName.Some?
    ensures !DownloadsSucceed(version, env, env.binaryFileName.value)
  {
  }

  /** When the signature gate rejects, `verify` fails with the signature
      error whatever the staged binary hashes to: the digest comparison is
      never reached. */
  lemma SignatureGateFirst(version: string, env: Environment, hashFile: string -> Option<string>)
    requires env.binaryFileName.Some?
    requires DownloadsSucceed(version, env, env.binaryFileName.value)
    requires ServedSignatures(version, env, env.binaryFileName.value).Some?
    requires !SignatureCheckPasses(ServedSignatures(version, env, env.binaryFileName.value).value)
    ensures Verify(version, env) == SignatureInvalid
    ensures Verify(version, env.(hashFile := hashFile)) == SignatureInvalid
  {
  }

  /** In particular, a signature file in which OpenPGP finds no signature at
      all fails `verify`. */
  lemma NoSignatureFails(version: string, env: Environment)
    requires env.binaryFileName.Some?
    requires DownloadsSucceed(version, env, env.binaryFileName.value)
    requires ServedSignatures(version, env, env.binaryFileName.value) == Some([])
    ensures Verify(version, env) == SignatureInvalid
  {
  }

  /** Once the signature passes, a digest that differs from the parsed token
      (in any character, including letter case) is a checksum mismatch. */
  lemma DigestDifferenceIsMismatch(version: string, env: Environment, actualSum: string)
    requires env.binaryFileName.Some?
    requires DownloadsSucceed(version, env, env.binaryFileName.value)
    requires ServedSignatures(version, env, env.binaryFileName.value).Some?
    requires SignatureCheckPasses(ServedSignatures(version, env, env.binaryFileName.value).value)
    requires env.hashFile(env.binaryFileName.value) == Some(actualSum)
    ensures Verify(version, env) == ChecksumMismatch
            <==> ServedExpectedSum(version, env, env.binaryFileName.value) != actualSum
    ensures Verify(version, env) == Ok
            <==> ServedExpectedSum(version, env, env.binaryFileName.value) == actualSum
  {
  }

  /** A checksum file that is empty or starts with a space or a newline
      yields an empty token, which no non-empty digest matches. */
  lemma MalformedChecksumMismatch(version: string, env: Environment, actualSum: string)
    requires env.binaryFileName.Some?
    requires DownloadsSucceed(version, env, env.binaryFileName.value)
    requires ServedSignatures(version, env, env.binaryFileName.value).Some?
    requires SignatureCheckPasses(ServedSignatures(version, env, env.binaryFileName.value).value)
    requires env.hashFile(env.binaryFileName.value) == Some(actualSum)
    requires actualSum != []
    requires var sumContent := SideFileResponse(version, env, env.binaryFileName.value, ChecksumSuffix).body;
             sumContent == [] || IsDelimiter(sumContent[0])
    ensures Verify(version, env) == ChecksumMismatch
  {
  }

  /** End to end: a release whose checksum file is `<digest> <name>` on its
      first line, signed with only valid signatures, for a binary that hashes to that digest,
      verifies; the same release with a binary that hashes to anything else
      is a checksum mismatch. */
  lemma SignedChecksumOfBinary(version: string, env: Environment, digest: string, listedName: string, rest: string)
    requires env.binaryFileName.Some?
    requires ' ' !in digest && '\n' !in digest
    requires DownloadsSucceed(version, env, env.binaryFileName.value)
    requires SideFileResponse(version, env, env.binaryFileName.value, ChecksumSuffix).body
             == digest + " " + listedName + "\n" + rest
    requires ServedSignatures(version, env, env.binaryFileName.value).Some?
    requires SignatureCheckPasses(ServedSignatures(version, env, env.binaryFileName.value).value)
    requires env.hashFile(env.binaryFileName.value).Some?
    ensures Verify(version, env) == Ok <==> env.hashFile(env.binaryFileName.value) == Some(digest)
    ensures env.hashFile(env.binaryFileName.value) != Some(digest) ==> Verify(version, env) == ChecksumMismatch
  {
    ExpectedSumRoundTrip(digest, listedName, rest);
    DigestDifferenceIsMismatch(version, env, env.hashFile(env.binaryFileName.value).value);
  }
}
