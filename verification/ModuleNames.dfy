/**
 What may name a module: shared by the publisher's object names and by the
 owners that an authorizer configuration lists.
 */
module ModuleNames {
  import opened Text

  /** ^[A-Za-z0-9]+$ */
  predicate ValidOwner(s: string) { s != "" && forall c :: c in s ==> IsDigit(c) || 'a' <= c <= 'z' || 'A' <= c <= 'Z' }

  /** ^[a-z0-9_]+$ */
  predicate ValidName(s: string) { s != "" && forall c :: c in s ==> IsDigit(c) || 'a' <= c <= 'z' || c == '_' }
}
