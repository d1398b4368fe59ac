# secure-update: the update verifier

A model of the decision logic of `verify` in `src/updater.js` of
secure-update, the check an Electron application runs on a downloaded
update before installing it. For a release `version` it reads the staged
binary's name from `update-info.json`, downloads the two side-files
`<name>.sha512sum` and `<name>.sha512sum.sig` from
`http://github.com/meriadec/secure-update/releases/download/v<version>/`,
checks the detached OpenPGP signature over the checksum text against the
bundled public key, takes the first token of the checksum text as the
expected SHA-512 digest and compares it with the digest of the staged
binary.

Every effect is an input: `Updater.Environment` holds the manifest's file
name (or its absence), the server's answer to each URL, which of the two
downloads settles first, the OpenPGP verdict as a function of (signature
text, checksum text), and the hasher as a function of the staged file name.
`Updater.Verify` is then a total function from a version and an environment
to an `Outcome` (`Ok`, `ArtifactMissing`, `DownloadFailed(message)`,
`SignatureUnreadable`, `SignatureInvalid`, `ChecksumMismatch`).

Modules:

- `Text` (text.dfy): `String.prototype.split` with a one-character
  separator, its inverse `Join`, and `ExpectedSum`, the token parse
  `sumContent.split("\n")[0].split(" ")[0]`.
- `Signature` (signature.dfy): `Array.prototype.every` over the validity
  flags and the fail-closed signature gate.
- `Fetch` (fetch.dfy): `dlFile`'s status rule, `dlUpdateFile`'s URL and file
  name, and `Promise.all` over the two downloads.
- `Updater` (updater.dfy): the `verify` chain and the properties relating
  its outcome to its inputs.
- `Optional` (option.dfy): the `Option` type.

In these places the code behaves in ways a reader might not expect, and the
model follows the code:

- The digest comparison is `!==`, so it is case-sensitive. An upper-case hex
  digest in the checksum file never matches the lower-case digest the
  hasher produces.
- The expected digest ends at the first space or newline only. A tab or a
  carriage return is part of the token. A checksum file `"<digest>\r\n"`
  yields `"<digest>\r"` and is a mismatch.
- A missing or malformed manifest does not have its own check in the code.
  It ends the attempt because `fs.readdir`, `fs.readFile`, `JSON.parse` or
  `path.resolve` throws. All of these are modelled as one outcome,
  `ArtifactMissing(UpdateInfo)`.
- An error thrown by OpenPGP is modelled as `SignatureUnreadable`. Examples
  are an unparsable armored signature or a library failure. The code does
  not turn these into "PGP SIGNATURE CHECK FAILED"; it just lets the
  exception propagate.

## Model

| member | source | states |
|---|---|---|
| Text.Split | src/updater.js:61 | splitting on one character always yields at least one piece, so `split(...)[0]` is always defined, also for empty text |
| Text.JoinSplit | src/updater.js:61 | joining the pieces of a split with the separator gives back the original text: no character is lost or added |
| Text.SplitPiecesFree | src/updater.js:61 | no piece of a split contains the separator |
| Text.SplitJoin | src/updater.js:61 | splitting a join of separator-free pieces gives back exactly those pieces |
| Text.SplitHeadShape | src/updater.js:61 | the first piece of a split is a separator-free prefix of the text that ends at the end of the text or right before a separator |
| Text.FirstField | src/updater.js:61 | `s.split(sep)[0]` is a separator-free prefix of `s` that ends at the end of `s` or right before a separator |
| Text.FirstFieldOfFirstLine | src/updater.js:61 | the first space-delimited field of the first line is the leading token of the whole text: a prefix with no space or newline, ending at the end of the text or right before one of them |
| Text.ExpectedSum | src/updater.js:61 | the parse `sumContent.split("\n")[0].split(" ")[0]`: the expected digest is a prefix of the checksum text, contains neither a space nor a newline, and is followed by one of them unless it reaches the end of the text |
| Text.LeadingTokenUnique | src/updater.js:61 | at most one prefix of a text has that shape |
| Text.ExpectedSumCharacterized | src/updater.js:61 | the parsed digest equals a string if and only if that string is the delimiter-free prefix that stops at the first space or newline |
| Text.ExpectedSumOfDelimited | src/updater.js:61 | a delimiter-free digest followed by a space or a newline and any text is parsed back exactly |
| Text.ExpectedSumRoundTrip | src/updater.js:61 | for any digest without space or newline, any file name and any further lines, parsing `digest + " " + name + "\n" + rest` yields the digest |
| Text.ExpectedSumEmpty | src/updater.js:61 | an empty checksum text, or one starting with a space or a newline, yields the empty token |
| Signature.Every | src/updater.js:52 | the left-to-right `every` is true exactly when every validity flag is true, including for the empty list |
| Signature.SignatureCheckPasses | src/updater.js:50-55 | the gate passes if and only if the list is non-empty and every signature is valid; an empty list always fails |
| Signature.OneInvalidRejects | src/updater.js:50-55 | one invalid signature anywhere in the list rejects it, whatever the other entries are |
| Fetch.DlFile | src/updater.js:94-112 | a download succeeds if and only if the status is exactly 200, and then saves the response body; any other status rejects with the server's status message |
| Fetch.DlUpdateFile | src/updater.js:114-119 | the side-file is saved as `fileName + suffix` and fetched from `BASE + "/v" + version + "/" + fileName + suffix` |
| Fetch.SideFileNameOf | src/updater.js:116 | recovers the saved name from a URL of the release directory: the URL is that directory followed by the name |
| Fetch.SideFileNameOfUrl | src/updater.js:115-116 | the URL of a side-file ends in exactly the local name it is saved under |
| Fetch.SideFileUrlInjective | src/updater.js:115-116 | for one version and suffix, two staged binaries with the same side-file URL have the same name |
| Fetch.SideFilesDistinct | src/updater.js:36-37 | the signature side-file is the checksum side-file plus `.sig`, both in name and URL, so the two downloads never share a URL string or a local file name |
| Fetch.AwaitBoth | src/updater.js:35-38 | `Promise.all` over the two downloads resolves if and only if both succeed, with both contents; otherwise it rejects with the message of a failed download, which is that download's message when only one failed |
| Updater.Verify | src/updater.js:24-71 | the attempt ends with the manifest error if and only if the manifest gives no file name: the manifest is the first gate |
| Updater.SideFilesOf | src/updater.js:31-38 | the two `dl(...)` calls joined by `Promise.all` hold the two served bodies exactly when both side-files were served with status 200 |
| Updater.VerifyOkIff | src/updater.js:24-71 | `verify` resolves if and only if the manifest names a binary, both side-files are served with 200, OpenPGP reports a non-empty all-valid signature list over the served checksum text, and the binary's digest equals the parsed token exactly; the accepted digest is then a delimiter-free prefix of the signed text |
| Updater.LaterFailureAfterEarlierSteps | src/updater.js:35-66 | pipeline order: a signature failure happens only after both downloads succeeded; a missing binary or a checksum mismatch only after the signature gate passed; `SignatureUnreadable` and `ArtifactMissing(Binary)` hold exactly when every earlier step passed and their own step failed; `SignatureInvalid` means the gate rejected, and `ChecksumMismatch` means the binary's digest differs from the parsed token |
| Updater.ManifestFirst | src/updater.js:25-35 | without a manifest the outcome is the manifest error, whatever the network, the signature and the binary are |
| Updater.VerifyFetchesOnlySideFiles | src/updater.js:31-38 | the outcome depends on the network only through the checksum and signature URLs of the staged binary for the requested version |
| Updater.DownloadFailureFails | src/updater.js:35-38 | if either side-file is served with a status other than 200, `verify` fails with a download error carrying a failed side-file's status text; when only one failed, it carries that one's text |
| Updater.DownloadFailedOnlyOnBadStatus | src/updater.js:35-38 | conversely, a download error means the manifest was read and some side-file was not served with 200 |
| Updater.SignatureGateFirst | src/updater.js:50-62 | when the signature gate rejects, the outcome is the signature error whatever the binary hashes to: the digest comparison is never reached |
| Updater.NoSignatureFails | src/updater.js:50-55 | a signature file in which OpenPGP finds no signature fails `verify` |
| Updater.DigestDifferenceIsMismatch | src/updater.js:61-66 | once the signature passes, the outcome is a checksum mismatch if and only if the parsed token differs from the computed digest in any character, letter case included, and Ok if and only if they are equal |
| Updater.MalformedChecksumMismatch | src/updater.js:61-66 | an empty checksum text, or one starting with a space or a newline, yields an empty token that mismatches any non-empty digest |
| Updater.SignedChecksumOfBinary | src/updater.js:24-71 | end to end: a `<digest> <name>` checksum file whose signatures are all valid (at least one) verifies if and only if the binary hashes to that digest; a tampered binary is a checksum mismatch |

## Left out

- `init` (src/updater.js:121-144): wiring onto `electron-updater`'s events. It calls `autoUpdater.install()` even when `verify` rejects, so the model has no "refuse to install" property.
- `src/main.js` and `src/updater-test.js`: window creation, IPC and a driver script. They contain no verification logic.
- SHA-512 hashing (`sha512sum`) and OpenPGP parsing and verification are foreign cryptographic code. They are inputs of the model (`hashFile`, `pgpVerify`), so the model says nothing about collision resistance or signature soundness.
- OpenPGP may report a signature's `valid` as `null` (key not found). `every` treats that as false, and the model's validity flags carry it as false.
- The network: the HTTP transfer, redirect following, and piping the body to disk. The model gives the final response for each URL. `dlFile` registers no `error` handler on the request or on the write stream. A transport error therefore never settles the promise: it hangs or crashes the process. The model does not represent that; every URL has a response.
- Reading the downloaded side-files back (`fs.readFile` with the `ascii` encoding). The model takes the saved content to be the served body as text, and does not model a read failure or the 7-bit masking of the `ascii` decoder.
- `path.resolve` normalisation of the update folder and of the local side-file path. The model keeps the local file name only.
- The concurrency of `Promise.all`. The model keeps the outcome: both must succeed, and the first rejection wins. The order in which the downloads settle is an input.
- Console logging, the `USER_DATA` default and `PUB_KEY` loading at module start. A missing key file makes the module fail to load, so `verify` is never reached. The key's content only influences the OpenPGP verdict input.
- Updater.Verify: its own contract states only the manifest gate. The full characterisation of its outcome is in the lemmas beside it (`VerifyOkIff`, `LaterFailureAfterEarlierSteps`, and the download, signature and digest lemmas).
