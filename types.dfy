/**
 * The shared record and enumeration types (src/types/index.ts): document types, issuing
 * services, request statuses, the catalog entry and the request row.
 */
module Types {
  import opened Wrappers

  datatype DocumentType = ActeNaissance | ActeMariage | CasierJudiciaire | CertificatNationalite

  datatype ServiceType = Mairie | SousPrefecture | Justice

  datatype RequestStatus = New | Assigned | InProgress | Completed | Cancelled

  /** The string tag the application stores for a document type. */
  function DocumentTypeKey(d: DocumentType): string {
    match d
    case ActeNaissance => "acte_naissance"
    case ActeMariage => "acte_mariage"
    case CasierJudiciaire => "casier_judiciaire"
    case CertificatNationalite => "certificat_nationalite"
  }

  /** The document type a stored tag names, if any. */
  function ParseDocumentType(key: string): (r: Option<DocumentType>)
    ensures r.Some? ==> DocumentTypeKey(r.value) == key
    ensures r.None? ==> forall d: DocumentType :: DocumentTypeKey(d) != key
  {
    if key == "acte_naissance" then Some(ActeNaissance)
    else if key == "acte_mariage" then Some(ActeMariage)
    else if key == "casier_judiciaire" then Some(CasierJudiciaire)
    else if key == "certificat_nationalite" then Some(CertificatNationalite)
    else None
  }

  lemma DocumentTypeKeyRoundTrip(d: DocumentType)
    ensures ParseDocumentType(DocumentTypeKey(d)) == Some(d)
  {
  }

  function StatusKey(s: RequestStatus): string {
    match s
    case New => "new"
    case Assigned => "assigned"
    case InProgress => "in_progress"
    case Completed => "completed"
    case Cancelled => "cancelled"
  }

  /** The status a stored tag names, if any. */
  function ParseStatus(key: string): (r: Option<RequestStatus>)
    ensures r.Some? ==> StatusKey(r.value) == key
    ensures r.None? ==> forall s: RequestStatus :: StatusKey(s) != key
  {
    if key == "new" then Some(New)
    else if key == "assigned" then Some(Assigned)
    else if key == "in_progress" then Some(InProgress)
    else if key == "completed" then Some(Completed)
    else if key == "cancelled" then Some(Cancelled)
    else None
  }

  lemma StatusKeyRoundTrip(s: RequestStatus)
    ensures ParseStatus(StatusKey(s)) == Some(s)
  {
  }

  /** A status tag that is one of the five enumeration values. */
  predicate KnownStatus(key: string) {
    ParseStatus(key).Some?
  }

  /** One catalog entry (the `DocumentConfig` interface). */
  datatype DocumentConfig = DocumentConfig(
    docType: DocumentType,
    name: string,
    service: ServiceType,
    basePrice: nat,        // FCFA, one copy at the reference city
    processingTime: nat,   // hours at the reference city
    requiredFields: seq<string>)

  /**
   * A request row as the pages receive it from the data store. The TypeScript interface
   * types `document_type` and `status` as enumerations, but nothing checks the rows that
   * come back, and the pages handle other values (a fallback status label, a search that
   * matches by city when no catalog entry exists); so both are the raw stored tags here.
   * `created_at`, `estimated_completion` and `completed_at` are the stored ISO strings.
   */
  datatype Request = Request(
    id: string,
    userId: string,
    delegateId: Option<string>,
    documentType: string,
    serviceType: string,
    status: string,
    city: string,
    copies: int,
    totalAmount: int,
    delegateEarnings: int,
    createdAt: string,
    estimatedCompletion: Option<string>,
    completedAt: Option<string>)
}
