/** The allow-list of file hosts a submitted link must point to. */
module Common {
  import opened Text

  /** The hosts, each with the `/` that must follow it. */
  const Domains: seq<string> := [
    "1fichier.com/", "afterupload.com/", "cjoint.net/", "desfichiers.com/",
    "megadl.fr/", "mesfichiers.org/", "piecejointe.net/", "pjointe.com/",
    "tenvoi.com/", "dl4free.com/", "ouo.io/"
  ]

  /** `is_valid_link`: the lower-cased link holds one of the hosts. */
  function IsValidLink(url: string): (ok: bool)
    ensures ok <==> exists j :: 0 <= j < |Domains| && Contains(Lower(url), Domains[j])
  {
    ContainsAny(Lower(url), Domains)
  }

  /** The check ignores the case of ASCII letters: a link and its
      upper-cased form are judged alike (the case mapping here is ASCII
      only; Python's full Unicode mapping can differ, as for the dotless ı). */
  lemma IsValidLinkIgnoresCase(url: string)
    ensures IsValidLink(Upper(url)) == IsValidLink(url)
  {
    LowerOfUpper(url);
  }

  /** Anything appended to an accepted link keeps it accepted. */
  lemma IsValidLinkAppend(url: string, suffix: string)
    requires IsValidLink(url)
    ensures IsValidLink(url + suffix)
  {
    var j :| 0 <= j < |Domains| && Contains(Lower(url), Domains[j]);
    LowerAppend(url, suffix);
    ContainsAppend(Lower(url), Lower(suffix), Domains[j]);
  }

  /** Every host ends in `/` after a character that is neither `/` nor `:`. */
  lemma DomainEnds(j: nat)
    requires j < |Domains|
    ensures |Domains[j]| >= 2 && Domains[j][|Domains[j]| - 1] == '/'
    ensures Domains[j][|Domains[j]| - 2] != '/' && Domains[j][|Domains[j]| - 2] != ':'
  {
  }

  /** A `/` that directly follows `/` or `:`, as in `https://`, is not the
      `/` after a host. */
  predicate SlashesOnlyAfterScheme(url: string) {
    forall k :: 0 <= k < |url| && url[k] == '/' ==> k > 0 && (url[k - 1] == '/' || url[k - 1] == ':')
  }

  /** A host is matched only with the `/` after it: a link whose only
      slashes are those of its scheme, such as `https://1fichier.com`, is
      rejected. */
  lemma HostNeedsSlash(url: string)
    requires SlashesOnlyAfterScheme(url)
    ensures !IsValidLink(url)
  {
    var s := Lower(url);
    forall j | 0 <= j < |Domains|
      ensures !Contains(s, Domains[j])
    {
      var d := Domains[j];
      DomainEnds(j);
      if Contains(s, d) {
        var i := ContainsWitness(s, d);
        assert false;
      }
    }
  }

  /** A 1fichier link with the `/` after the host is accepted, whatever
      comes before and after. */
  lemma FichierLinkAccepted(before: string, after: string)
    ensures IsValidLink(before + "1fichier.com/" + after)
  {
    var d := Domains[0];
    assert Lower(d) == d;
    LowerAppend(before, d);
    LowerAppend(before + d, after);
    ContainsSelf(d);
    ContainsPrepend(Lower(before), d, d);
    ContainsAppend(Lower(before) + d, Lower(after), d);
  }

  /** The bare address of 1fichier has no `/` after the host. */
  lemma BareHostRejected()
    ensures !IsValidLink("https://1fichier.com")
  {
    HostNeedsSlash("https://1fichier.com");
  }
}
