/** One organization's approved knowledge base. */
module KnowledgeBase {
  import opened Wrappers
  import opened Schedules

  /** The scalar behind a seller-authored fact; a number keeps its source digits. */
  datatype FactValue = Number(digits: string) | Flag(b: bool) | Words(s: string)

  datatype AdditionalFact = AdditionalFact(ref: string, value: FactValue, instruction: string)

  datatype Material = Material(
    id: string, organizationID: string, sourceType: string, mimeType: string, sizeBytes: int,
    storageBackend: string, storageKey: string, customerVisibility: string)

  datatype Topic = Topic(
    slug: string, title: string, featuredImage: string, illustrationImages: seq<string>,
    explainerVideos: seq<string>, referenceDocuments: seq<string>)

  /** prose holds the eight prompt-visible texts a fact's exact value must not appear in. */
  datatype Product = Product(
    ref: string, name: string, price: string, prose: seq<string>, availabilityStatus: string,
    additionalFacts: seq<AdditionalFact>, salesStatus: string, featuredImage: string,
    galleryImages: seq<string>, demoVideos: seq<string>, certificateDocuments: seq<string>,
    guaranteeDocuments: seq<string>)

  datatype Tariff = Tariff(
    ref: string, name: string, price: string, fee: string, prose: seq<string>,
    additionalFacts: seq<AdditionalFact>, salesStatus: string, featuredImage: string,
    pricingImages: seq<string>, explainerVideos: seq<string>, termsDocuments: seq<string>)

  datatype TariffInfo = TariffInfo(additionalFacts: seq<AdditionalFact>)

  datatype Contacts = Contacts(
    phone: string, whatsapp: string, email: string, website: string, instagram: string,
    workingHours: string, bookingURL: string, schedule: Schedule, contactCardImage: string,
    locationMapImage: string, companyLegalDocuments: seq<string>)

  datatype Policies = Policies(
    deliveryCost: string, deliveryInDays: string, freeDeliveryFrom: string, minOrder: string,
    returnPeriodInDays: string, outsideZonesNote: string, commercePolicyDocuments: seq<string>)

  datatype DeliveryZone = DeliveryZone(
    ref: string, zoneLevel: string, parentRef: string, deliveryAvailable: bool,
    deliveryCost: string, deliveryInDays: string, salesStatus: string)

  datatype Specialist = Specialist(
    ref: string, fullName: string, schedule: Schedule, bookingURL: string,
    portfolioImages: seq<string>, salesStatus: string)

  datatype Service = Service(
    ref: string, parentRef: string, serviceType: string, category: string, name: string,
    price: string, duration: Option<int>, salesStatus: string)

  datatype KB = KB(
    organizationID: string, topics: seq<Topic>, products: seq<Product>, tariffs: seq<Tariff>,
    contacts: Option<Contacts>, policies: Option<Policies>, tariffInfo: Option<TariffInfo>,
    deliveryZones: seq<DeliveryZone>, specialists: seq<Specialist>, services: seq<Service>,
    materials: seq<Material>)

  predicate Active(salesStatus: string) {
    salesStatus == "active"
  }

  predicate ValidAvailability(status: string) {
    status in {"in_stock", "preorder", "on_demand", "unavailable"}
  }

  predicate ProductVisible(p: Product) {
    Active(p.salesStatus) && p.availabilityStatus in {"in_stock", "preorder", "on_demand"}
  }

  predicate IsSalon(kb: KB) {
    |kb.specialists| > 0 || |kb.services| > 0
  }

  predicate RefStart(c: char) {
    'a' <= c <= 'z' || '0' <= c <= '9'
  }

  // ^[a-z0-9][a-z0-9_-]*$
  predicate ValidRef(ref: string) {
    && ref != "" && RefStart(ref[0])
    && forall i | 0 <= i < |ref| :: RefStart(ref[i]) || ref[i] == '_' || ref[i] == '-'
  }
}
