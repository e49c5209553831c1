/**
 * The services page (src/pages/ServicesPage.tsx): the catalog entries grouped by the
 * service that issues them, each group keeping the catalog's order.
 */
module ServiceGroups {
  import opened Types
  import opened Documents
  import opened Seqs

  /** The groups, in the order the page shows them (`Object.entries(serviceTypes)`). */
  const GroupOrder: seq<ServiceType> := [Mairie, SousPrefecture, Justice]

  /** `Object.values(DOCUMENT_CONFIGS).filter(doc => doc.service === service)` */
  function GroupDocuments(service: ServiceType): (docs: seq<DocumentConfig>)
    ensures forall c :: c in docs <==> c in AllConfigs() && c.service == service
  {
    var inGroup := (c: DocumentConfig) => c.service == service;
    FilterMembershipAll(inGroup, AllConfigs());
    Filter(inGroup, AllConfigs())
  }

  /** The three groups, entry by entry, in catalog order. */
  lemma GroupContents()
    ensures GroupDocuments(Mairie) == [Config(ActeNaissance), Config(ActeMariage)]
    ensures GroupDocuments(SousPrefecture) == [Config(CertificatNationalite)]
    ensures GroupDocuments(Justice) == [Config(CasierJudiciaire)]
  {
    MairieGroup();
    SousPrefectureGroup();
    JusticeGroup();
  }

  lemma MairieGroup()
    ensures GroupDocuments(Mairie) == [Config(ActeNaissance), Config(ActeMariage)]
  {
    var all := AllConfigs();
    assert all == [Config(ActeNaissance), Config(ActeMariage), Config(CasierJudiciaire), Config(CertificatNationalite)];
    assert all[1..][1..][1..][1..] == [];
  }

  lemma SousPrefectureGroup()
    ensures GroupDocuments(SousPrefecture) == [Config(CertificatNationalite)]
  {
    var all := AllConfigs();
    assert all == [Config(ActeNaissance), Config(ActeMariage), Config(CasierJudiciaire), Config(CertificatNationalite)];
    assert all[1..][1..][1..][1..] == [];
  }

  lemma JusticeGroup()
    ensures GroupDocuments(Justice) == [Config(CasierJudiciaire)]
  {
    var all := AllConfigs();
    assert all == [Config(ActeNaissance), Config(ActeMariage), Config(CasierJudiciaire), Config(CertificatNationalite)];
    assert all[1..][1..][1..][1..] == [];
  }

  /** Every document type is in exactly one group: the one of its issuing service. */
  lemma GroupsPartitionCatalog(d: DocumentType, service: ServiceType)
    ensures Config(d) in GroupDocuments(service) <==> Config(d).service == service
  {
    CatalogListsEachTypeOnce(d);
  }

  /** Together the groups list the four document types once each. */
  lemma GroupsCoverCatalog()
    ensures |GroupDocuments(GroupOrder[0])| + |GroupDocuments(GroupOrder[1])| + |GroupDocuments(GroupOrder[2])|
            == |AllConfigs()|
    ensures forall s: ServiceType :: s in GroupOrder
  {
    GroupContents();
    forall s: ServiceType ensures s in GroupOrder {
      match s
      case Mairie => assert GroupOrder[0] == s;
      case SousPrefecture => assert GroupOrder[1] == s;
      case Justice => assert GroupOrder[2] == s;
    }
  }
}
