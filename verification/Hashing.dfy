/** Content hashes and fingerprints. A hash of canonical JSON is modelled by the value itself, so equal
    digests mean equal contents. */
module Hashing {

  datatype Digest = Text(text: string) | Number(number: int) | Flag(flag: bool) | Record(fields: seq<Digest>)
}
