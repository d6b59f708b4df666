/** The messages of the relay protocol.  Strings are their UTF-8 bytes; the
    integer widths of the wire are part of `Codec.PayloadFits`. */
module Payloads {
  import opened Bytes

  datatype Payload =
    | Exec(id: nat, timeoutSecs: nat, cwd: Blob, raw: bool, command: Blob)
    | ExecOut(id: nat, stream: nat, data: Blob)
    | ExecEnd(id: nat, rc: int, timedOut: bool, reason: Blob)
    | Error(id: nat, code: nat, message: Blob)
    | PushBegin(id: nat, remotePath: Blob, sourceName: Blob, sourceIsDir: bool, sourceFiles: nat, sourceBytes: nat)
    | PushReady(id: nat, remoteRoot: Blob)
    | Mkdir(id: nat, rel: Blob, mode: nat)
    | FileBegin(id: nat, fileSeq: nat, rel: Blob, size: nat, mode: nat, sha256: Digest)
    | Data(id: nat, data: Blob)
    | FileEnd(id: nat, sha256: Digest)
    | Symlink(id: nat, rel: Blob, target: Blob, mode: nat)
    | PushEnd(id: nat)
    | TransferDone(id: nat, ok: bool, error: Blob, remotePath: Blob, bytes: nat, sha256: Digest)
    | ManifestEnd(id: nat, files: nat)
    | PullBegin(id: nat, remotePath: Blob)
    | Entry(id: nat, fileSeq: nat, rel: Blob, kind: nat, size: nat, mode: nat, linkTarget: Blob, sha256: Digest)
    | FilePlan(id: nat, fileSeq: nat, action: nat, blockSize: nat, blockCount: nat)
    | FileSigs(id: nat, fileSeq: nat, first: nat, sigs: Blob)
    | PlanEnd(id: nat)
    | FileStart(id: nat, fileSeq: nat)
    | Copy(id: nat, start: nat, len: nat)
    | Shutdown(id: nat, reason: Blob)
    | Bye(id: nat, exitCode: int, reason: Blob)
  {
    /** The last payload an agent sends for a route. */
    predicate IsFinal() {
      ExecEnd? || Error? || TransferDone? || Bye?
    }
  }

  datatype PeerInfo = PeerInfo(role: nat, name: Blob, version: Blob, os: Blob, arch: Blob,
                               connectedAtMs: nat, lastSeenMs: nat)

  datatype Frame =
    | Hello(role: nat, name: Blob, version: Blob, os: Blob, arch: Blob, pid: nat)
    | HelloOk(version: Blob)
    | ErrorFrame(code: nat, message: Blob)
    | Ping(nonce: nat)
    | Pong(nonce: nat)
    | RelayReq(target: Blob, payload: Blob)
    | RelayDeliver(route: nat, payload: Blob)
    | RelayResult(route: nat, payload: Blob)
    | RouteCancel(route: nat)
    | ListReq
    | ListRes(peers: seq<PeerInfo>)
}
