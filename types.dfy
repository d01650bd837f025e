/**
 * The records the portal passes around: a certificate request, its pipeline
 * status, the certificate tags an applicant can ask for, and the requester
 * profile kept for prefilling the form.
 */
module Types {

  datatype Option<T> = None | Some(value: T)

  /** The six pipeline states. The source declares them as a string enum; `StatusLabel`
      gives each its string value. */
  datatype Status =
    | AtHr
    | SentHrAdmin
    | SentInternational
    | ReturnedHrAdmin
    | ReturnedInternational
    | Returned

  function StatusLabel(s: Status): string {
    match s
    case AtHr => "อยู่ทีงานทรัพยากรบุคคล"
    case SentHrAdmin => "ส่งกองการบริหารงานบุคคลแล้ว"
    case SentInternational => "ส่งกองต่างประเทศแล้ว"
    case ReturnedHrAdmin => "กลับจากกองการบริหารงานบุคคลแล้ว"
    case ReturnedInternational => "กลับจากกองต่างประเทศแล้ว"
    case Returned => "ดำเนินการเรียบร้อยแล้ว"
  }

  /** The six enum values are pairwise distinct strings. */
  lemma StatusLabelInjective(s: Status, t: Status)
    requires StatusLabel(s) == StatusLabel(t)
    ensures s == t
  {
  }

  /** The eleven certificate tags: salary and employment certificates, four banks,
      three staff cards, and two English-language certificates, the second for a visa. */
  datatype CertType =
    | Salary
    | Employment
    | SavingsBank
    | HousingBank
    | Krungthai
    | IslamicBank
    | UniversityStaffCard
    | GovernmentEmployeeCard
    | CivilServantCard
    | EnglishCertificate
    | EnglishVisa

  /** The tag that asks for a destination country. */
  const VisaType: CertType := EnglishVisa

  function CertLabel(t: CertType): string {
    match t
    case Salary => "รับรองเงินเดือน"
    case Employment => "รับรองปฏิบัติงาน"
    case SavingsBank => "ออมสิน"
    case HousingBank => "ธอส."
    case Krungthai => "กรุงไทย"
    case IslamicBank => "อิสลาม"
    case UniversityStaffCard => "บัตรพนักงานมหาวิทยาลัย"
    case GovernmentEmployeeCard => "บัตรพนักงานราชการ"
    case CivilServantCard => "บัตรข้าราชการ"
    case EnglishCertificate => "หนังสือรับรองภาษาอังกฤษ" + " (เงินเดือน/ปฏิบัติงาน)"
    case EnglishVisa => "รับรองภาษาอังกฤษเพื่อขอวีซ่า"
  }

  const AllCertTypes: seq<CertType> :=
    [Salary, Employment, SavingsBank, HousingBank, Krungthai, IslamicBank,
     UniversityStaffCard, GovernmentEmployeeCard, CivilServantCard,
     EnglishCertificate, EnglishVisa]

  /** The union type is closed: exactly eleven tags with eleven distinct string values,
      the visa tag among them. */
  lemma CertTypesClosed()
    ensures |AllCertTypes| == 11
    ensures forall t: CertType :: t in AllCertTypes
    ensures forall i, j :: 0 <= i < j < |AllCertTypes| ==>
              CertLabel(AllCertTypes[i]) != CertLabel(AllCertTypes[j])
    ensures VisaType in AllCertTypes
  {
    forall t: CertType
      ensures t in AllCertTypes
    {
      match t
      case Salary => assert AllCertTypes[0] == t;
      case Employment => assert AllCertTypes[1] == t;
      case SavingsBank => assert AllCertTypes[2] == t;
      case HousingBank => assert AllCertTypes[3] == t;
      case Krungthai => assert AllCertTypes[4] == t;
      case IslamicBank => assert AllCertTypes[5] == t;
      case UniversityStaffCard => assert AllCertTypes[6] == t;
      case GovernmentEmployeeCard => assert AllCertTypes[7] == t;
      case CivilServantCard => assert AllCertTypes[8] == t;
      case EnglishCertificate => assert AllCertTypes[9] == t;
      case EnglishVisa => assert AllCertTypes[10] == t;
    }
  }

  /** One applicant submission. The four `Option` fields are the ones the source marks
      optional; every other field is always present. */
  datatype Request = Request(
    id: int,
    fullName: string,
    email: string,
    selectedTypes: seq<CertType>,
    submissionSign: string,
    submissionDate: string,
    receivingSign: Option<string>,
    receivingDate: Option<string>,
    internalPhone: string,
    mobilePhone: string,
    status: Status,
    targetCountry: Option<string>,
    lastEmailStatus: Option<string>)

  /** The remembered requester identity: four of the request's fields. */
  datatype UserProfile = UserProfile(
    fullName: string,
    email: string,
    internalPhone: string,
    mobilePhone: string)

  /** JavaScript truthiness of an optional string: present and not empty. */
  predicate Truthy(o: Option<string>) {
    o.Some? && o.value != ""
  }

  /** `r.receivingSign` is truthy: the applicant has signed for pickup. */
  predicate HasReceipt(r: Request) {
    Truthy(r.receivingSign)
  }
}
