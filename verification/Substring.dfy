/** Substring membership, the meaning of C's strstr and of Go's hand-written search. */
module Substring {

  predicate OccursAt(s: string, sub: string, i: int) {
    0 <= i <= |s| - |sub| && s[i..i + |sub|] == sub
  }

  /** Some position of s holds exactly sub. The empty text occurs in every text. */
  predicate Occurs(s: string, sub: string) {
    exists i | 0 <= i <= |s| - |sub| :: OccursAt(s, sub, i)
  }

  predicate OccursAny(s: string, subs: seq<string>) {
    exists k | 0 <= k < |subs| :: Occurs(s, subs[k])
  }
}

module Options {
  datatype Option<+T> = None | Some(value: T)
}
