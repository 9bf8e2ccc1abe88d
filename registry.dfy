/**
 * The verify page: a list of certificate records kept in component state and mirrored to the
 * "certificates" entry of local storage, a search over it, and a recent-activity view.
 */
module Registry {
  import opened JsString
  import opened Storage
  import opened Seqs
  import opened Token

  /**
   * One stored record. A field that a stored record lacks reads as "" here: the search treats a
   * missing field as "" (`c.name || ""`).
   */
  datatype Certificate = Certificate(id: string, name: string, issued: string, status: string)

  const CertificatesKey: string := "certificates"

  /** `loadCertificatesFromStorage()`: the stored list, or [] when it is missing, empty or unreadable. */
  function LoadCertificates(storage: Store<seq<Certificate>>): (r: seq<Certificate>)
    ensures CertificatesKey in storage && storage[CertificatesKey].Json? ==> r == storage[CertificatesKey].value
    ensures CertificatesKey !in storage || !storage[CertificatesKey].Json? ==> r == []
  {
    if CertificatesKey in storage then
      match storage[CertificatesKey]
      case Json(list) => list
      case _ => []
    else []
  }

  /** The search condition: the lower-cased name, id or status contains the query. */
  predicate MatchesQuery(c: Certificate, q: string) {
    Includes(ToLower(c.name), q) || Includes(ToLower(c.id), q) || Includes(ToLower(c.status), q)
  }

  function Matches(q: string): Certificate -> bool {
    (c: Certificate) => MatchesQuery(c, q)
  }

  /** The query the search actually uses: trimmed and lower-cased. */
  function Normalize(search: string): string {
    ToLower(Trim(search))
  }

  /** The records a normalized query `q` selects, newest (last stored) first; "" selects all. */
  function Listing(certs: seq<Certificate>, q: string): seq<Certificate> {
    if q == "" then Reverse(certs) else Reverse(Filter(certs, Matches(q)))
  }

  /** `filtered`: the listing for the search box's text. */
  function SearchResults(certs: seq<Certificate>, search: string): seq<Certificate> {
    Listing(certs, Normalize(search))
  }

  /** An empty or all-white-space query lists every record, in reverse of the stored order. */
  lemma BlankSearchListsAll(certs: seq<Certificate>, search: string)
    requires AllSpace(search)
    ensures var r := SearchResults(certs, search);
      |r| == |certs| && forall i :: 0 <= i < |r| ==> r[i] == certs[|certs| - 1 - i]
  {
    TrimEmptyIff(search);
  }

  /**
   * Any other query lists the matching records newest first: with `idx` the stored positions kept by
   * the filter, in increasing order, the record at the j-th of those positions matches and is the
   * j-th result counted from the end.
   */
  lemma ListingSelectsMatches(certs: seq<Certificate>, q: string)
    requires q != ""
    ensures var r, idx := Listing(certs, q), KeptIndices(certs, Matches(q));
      && |r| == |idx|
      && StrictlyIncreasing(idx)
      && (forall j :: 0 <= j < |idx| ==>
            idx[j] < |certs| && MatchesQuery(certs[idx[j]], q) && r[|r| - 1 - j] == certs[idx[j]])
  {
    ReverseFilterByIndices(certs, Matches(q));
    var idx := KeptIndices(certs, Matches(q));
    forall j | 0 <= j < |idx| ensures MatchesQuery(certs[idx[j]], q) {
      assert Matches(q)(certs[idx[j]]);
    }
  }

  /** No matching record is skipped: every stored position whose record matches is among those positions. */
  lemma ListingMissesNoMatch(certs: seq<Certificate>, q: string)
    ensures forall i :: 0 <= i < |certs| && MatchesQuery(certs[i], q) ==> i in KeptIndices(certs, Matches(q))
  {
    KeptIndicesComplete(certs, Matches(q));
    forall i | 0 <= i < |certs| && MatchesQuery(certs[i], q) ensures i in KeptIndices(certs, Matches(q)) {
      assert Matches(q)(certs[i]);
    }
  }

  /** A record appears in the listing exactly when it is stored and matches (or the query is blank). */
  lemma ListingMembership(certs: seq<Certificate>, q: string, c: Certificate)
    ensures c in Listing(certs, q) <==> c in certs && (q == "" || MatchesQuery(c, q))
  {
    if q == "" {
      ReverseMembership(certs, c);
    } else {
      ReverseMembership(Filter(certs, Matches(q)), c);
      FilterMembership(certs, Matches(q), c);
    }
  }

  /** Recent activity, `certificates.slice().reverse().slice(0, 6)`: the last six records, newest first. */
  function RecentActivity(certs: seq<Certificate>): (r: seq<Certificate>)
    ensures |r| == if |certs| < 6 then |certs| else 6
    ensures forall i :: 0 <= i < |r| ==> r[i] == certs[|certs| - 1 - i]
  {
    var newestFirst := Reverse(certs);
    if |newestFirst| < 6 then newestFirst else newestFirst[..6]
  }

  /** Recent activity is the head of the unfiltered listing. */
  lemma RecentIsHeadOfListing(certs: seq<Certificate>)
    ensures var all := SearchResults(certs, "");
      RecentActivity(certs) == all[..|RecentActivity(certs)|]
  {
    assert Normalize("") == "";
  }

  /** `c.id !== id`, the condition `handleRemove` keeps. */
  function OtherId(id: string): Certificate -> bool {
    (c: Certificate) => c.id != id
  }

  /** The fields of the add dialog. */
  datatype AddField = IdField | NameField | IssuedField | StatusField

  const IdPrefix: string := "CERT-"

  /** The id `handleAddOpen` proposes: "CERT-" and up to seven upper-cased random base-36 digits. */
  function DraftId(randomText: string): string {
    IdPrefix + ToUpper(Slice(randomText, 2, 9))
  }

  /** A proposed id starts with "CERT-" and carries at most seven upper-case base-36 digits after it. */
  lemma DraftIdShape(randomText: string)
    requires IsRandomText(randomText)
    ensures var id := DraftId(randomText);
      id[..|IdPrefix|] == IdPrefix && |id| <= |IdPrefix| + 7 && AllUpper36(id[|IdPrefix|..])
  {
    var sl := Slice(randomText, 2, 9);
    var digits := ToUpper(sl);
    var id := DraftId(randomText);
    forall i | 0 <= i < |digits| ensures IsUpper36(digits[i]) {
      assert sl[i] == randomText[2 + i];
    }
    assert id[|IdPrefix|..] == digits;
  }

  class VerifyCertificate {
    var search: string
    var certificates: seq<Certificate>
    var showAdd: bool
    var adding: Certificate
    /** The page's view of local storage; only the "certificates" key is read or written. */
    var storage: Store<seq<Certificate>>

    /** The first render, before the mount effect: empty list, dialog closed, a blank draft record. */
    constructor (today: string, storage: Store<seq<Certificate>>)
      ensures search == "" && certificates == [] && !showAdd
      ensures adding == Certificate("", "", today, "Issued") && this.storage == storage
    {
      search := "";
      certificates := [];
      showAdd := false;
      adding := Certificate("", "", today, "Issued");
      this.storage := storage;
    }

    /** The mount effect and `handleRefresh`: the list is read back from storage. */
    method Reload()
      modifies this`certificates
      ensures certificates == LoadCertificates(storage)
    {
      certificates := LoadCertificates(storage);
    }

    /** The search box. */
    method SetSearch(text: string)
      modifies this`search
      ensures search == text
    {
      search := text;
    }

    /** The rows shown for the current search. */
    function Filtered(): seq<Certificate>
      reads this
    {
      SearchResults(certificates, search)
    }

    /**
     * `handleAddOpen`, with `Math.random().toString(36)` as `randomText` and today's ISO date as
     * `today`: a fresh draft record whose id is "CERT-" and up to seven upper-cased random characters.
     */
    method HandleAddOpen(randomText: string, today: string)
      modifies this`adding, this`showAdd
      ensures adding == Certificate(DraftId(randomText), "", today, "Issued")
      ensures showAdd
    {
      adding := Certificate(DraftId(randomText), "", today, "Issued");
      showAdd := true;
    }

    /** The dialog's cancel button: the dialog closes and the draft record stays as it is. */
    method HandleAddCancel()
      modifies this`showAdd
      ensures !showAdd
    {
      showAdd := false;
    }

    /** One input of the add dialog writes its own field of the draft record. */
    method HandleAddingChange(field: AddField, value: string)
      modifies this`adding
      ensures adding == match field
        case IdField => old(adding).(id := value)
        case NameField => old(adding).(name := value)
        case IssuedField => old(adding).(issued := value)
        case StatusField => old(adding).(status := value)
    {
      match field
      case IdField => adding := adding.(id := value);
      case NameField => adding := adding.(name := value);
      case IssuedField => adding := adding.(issued := value);
      case StatusField => adding := adding.(status := value);
    }

    /**
     * `handleAddSave`: a draft whose trimmed name or trimmed id is empty is refused (`alerted`) and
     * nothing changes; otherwise it is appended, the new list is stored and the dialog closes.
     */
    method HandleAddSave() returns (alerted: bool)
      modifies this`certificates, this`storage, this`showAdd
      ensures alerted <==> AllSpace(adding.name) || AllSpace(adding.id)
      ensures alerted ==> certificates == old(certificates) && storage == old(storage) && showAdd == old(showAdd)
      ensures !alerted ==> certificates == old(certificates) + [adding]
      ensures !alerted ==> storage == old(storage)[CertificatesKey := Json(certificates)] && !showAdd
    {
      var draft := adding;
      var nameBlank, idBlank := Trim(draft.name) == "", Trim(draft.id) == "";
      TrimEmptyIff(draft.name);
      TrimEmptyIff(draft.id);
      assert nameBlank == AllSpace(draft.name) && idBlank == AllSpace(draft.id);
      if nameBlank || idBlank {
        return true;
      }
      var next := certificates + [draft];
      certificates := next;
      storage := storage[CertificatesKey := Json(next)];
      showAdd := false;
      return false;
    }

    /**
     * `handleRemove(id)`; `confirmed` is the answer to the confirmation dialog. Once confirmed, every
     * record with that id goes, the others keep their order, and the new list is stored.
     */
    method HandleRemove(id: string, confirmed: bool)
      modifies this`certificates, this`storage
      ensures !confirmed ==> certificates == old(certificates) && storage == old(storage)
      ensures confirmed ==> certificates == Filter(old(certificates), OtherId(id))
      ensures confirmed ==> storage == old(storage)[CertificatesKey := Json(certificates)]
      ensures confirmed ==> forall c :: c in certificates <==> c in old(certificates) && c.id != id
    {
      if !confirmed {
        return;
      }
      var next := Filter(certificates, OtherId(id));
      forall c ensures c in next <==> c in certificates && c.id != id {
        FilterMembership(certificates, OtherId(id), c);
      }
      certificates := next;
      storage := storage[CertificatesKey := Json(next)];
    }

    /** `handleClearAll`; once confirmed, the list and the stored list are both empty. */
    method HandleClearAll(confirmed: bool)
      modifies this`certificates, this`storage
      ensures !confirmed ==> certificates == old(certificates) && storage == old(storage)
      ensures confirmed ==> certificates == [] && storage == old(storage)[CertificatesKey := Json([])]
      ensures confirmed ==> LoadCertificates(storage) == []
    {
      if !confirmed {
        return;
      }
      certificates := [];
      storage := storage[CertificatesKey := Json([])];
    }
  }

  /** A reload right after a successful save reads back the list with the new record at the end. */
  method SaveThenReload(page: VerifyCertificate) returns (alerted: bool)
    modifies page
    ensures !alerted ==> page.certificates == old(page.certificates) + [old(page.adding)]
    ensures alerted ==> page.certificates == LoadCertificates(old(page.storage))
  {
    alerted := page.HandleAddSave();
    page.Reload();
  }
}
