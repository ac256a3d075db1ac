/**
 Access tokens as configurations offer them: plain tokens, kept under the digest of
 their trimmed text, and stored records, kept under the digest they carry. A key
 may be offered once in all configurations together.
 */
module AccessTokens {
  import opened Text
  import opened Version

  datatype TokenRecord = TokenRecord(id: string, digest: string, revoked: bool, expiresAt: Option<int>)
  {
    predicate Active(now: int) { digest != "" && !revoked && (expiresAt.None? || now < expiresAt.value) }
  }

  datatype Source = Plain(text: string) | Stored(record: TokenRecord)

  datatype Offer<G> = Offer(grant: G, source: Source)

  /** Blank tokens, and revoked or expired records, are passed over. */
  function KeyOf(digest: string -> string, now: int, source: Source): Option<string>
  {
    match source
    case Plain(text) => if TrimSpace(text) == "" then None else Some(digest(TrimSpace(text)))
    case Stored(record) => if record.Active(now) then Some(record.digest) else None
  }

  function TokenKeys(digest: string -> string, now: int): Source -> Option<string> { source => KeyOf(digest, now, source) }

  ghost predicate NoReuse<G>(keys: Source -> Option<string>, offers: seq<Offer<G>>)
  {
    forall i, j :: 0 <= i < j < |offers| && keys(offers[i].source).Some? ==> keys(offers[i].source) != keys(offers[j].source)
  }

  /** The directory holds exactly what is offered, each under its key. */
  ghost predicate Lists<G>(keys: Source -> Option<string>, directory: map<string, Offer<G>>, offers: seq<Offer<G>>)
  {
    && (forall o :: o in offers && keys(o.source).Some? ==> keys(o.source).value in directory && directory[keys(o.source).value] == o)
    && (forall key :: key in directory ==> directory[key] in offers && keys(directory[key].source) == Some(key))
  }

  lemma ReuseStays<G>(keys: Source -> Option<string>, offers: seq<Offer<G>>, more: seq<Offer<G>>)
    requires !NoReuse(keys, offers)
    ensures !NoReuse(keys, offers + more)
  {
    assert forall i :: 0 <= i < |offers| ==> (offers + more)[i] == offers[i];
  }

  lemma OneMore<G>(keys: Source -> Option<string>, directory: map<string, Offer<G>>, offers: seq<Offer<G>>, o: Offer<G>)
    requires NoReuse(keys, offers) && Lists(keys, directory, offers)
    ensures NoReuse(keys, offers + [o]) <==> keys(o.source).None? || keys(o.source).value !in directory
  {
    if keys(o.source).Some? && keys(o.source).value in directory {
      var i :| 0 <= i < |offers| && offers[i] == directory[keys(o.source).value];
      assert (offers + [o])[i] == offers[i] && (offers + [o])[|offers|] == o;
    }
  }

  method RegisterOne<G>(keys: Source -> Option<string>, directory: map<string, Offer<G>>, o: Offer<G>, ghost offers: seq<Offer<G>>)
    returns (ok: bool, directory': map<string, Offer<G>>)
    requires NoReuse(keys, offers) && Lists(keys, directory, offers)
    ensures ok <==> NoReuse(keys, offers + [o])
    ensures ok ==> Lists(keys, directory', offers + [o])
  {
    OneMore(keys, directory, offers, o);
    var key := keys(o.source);
    if key.None? { return true, directory; }
    if key.value in directory { return false, directory; }
    return true, directory[key.value := o];
  }

  /** Registers one offer after the other, up to the first key that is taken. */
  method Register<G>(keys: Source -> Option<string>, directory: map<string, Offer<G>>, more: seq<Offer<G>>, ghost offers: seq<Offer<G>>)
    returns (ok: bool, directory': map<string, Offer<G>>)
    requires NoReuse(keys, offers) && Lists(keys, directory, offers)
    ensures ok <==> NoReuse(keys, offers + more)
    ensures ok ==> Lists(keys, directory', offers + more)
  {
    directory' := directory;
    assert offers + more[..0] == offers;
    for i := 0 to |more|
      invariant NoReuse(keys, offers + more[..i])
      invariant Lists(keys, directory', offers + more[..i])
    {
      assert offers + more[..i] + [more[i]] == offers + more[..i + 1];
      ok, directory' := RegisterOne(keys, directory', more[i], offers + more[..i]);
      if !ok {
        ReuseStays(keys, offers + more[..i + 1], more[i + 1..]);
        assert offers + more[..i + 1] + more[i + 1..] == offers + more;
        return;
      }
    }
    assert more[..|more|] == more;
    ok := true;
  }
}
