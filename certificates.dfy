/**
 * Certificate metadata (agent/certificate_manager.py): the Common Name and
 * issuer family read off a certificate's distinguished names, the validity
 * window, the CertificateManager's load-once cache and its lookups and
 * filters, and the file-extension gate for PKCS#12 files.
 *
 * The certificate store itself (PowerShell, win32crypt) and PKCS#12 parsing
 * are outside the model: their results arrive as parameters.
 */
module Certificates {
  import opened Wrappers
  import opened Text
  import opened Seqs

  /** Validity instants are seconds on the agent's local clock. */
  datatype CertificateInfo = CertificateInfo(
    thumbprint: string,
    subject: string,
    issuer: string,
    validFrom: int,
    validTo: int,
    hasPrivateKey: bool)

  // ---------------------------------------------------------------------------
  // Common Name
  // ---------------------------------------------------------------------------

  /** A comma-separated component of a subject that names the CN attribute. */
  predicate IsCommonNamePart(part: string) {
    "CN=" <= Strip(part)
  }

  /** The search loop of `common_name`: the first stripped component that
      starts with "CN=", without that prefix. */
  function FirstCommonName(parts: seq<string>): Option<string> {
    if parts == [] then None
    else if IsCommonNamePart(parts[0]) then Some(Strip(parts[0])[3..])
    else FirstCommonName(parts[1..])
  }

  /** `CertificateInfo.common_name`: the CN value, or the whole subject when
      no component is a CN. */
  function CommonName(cert: CertificateInfo): string {
    match FirstCommonName(Split(cert.subject, ','))
    case Some(cn) => cn
    case None => cert.subject
  }

  lemma {:induction false} FirstCommonNameAt(parts: seq<string>, i: nat)
    requires i < |parts| && IsCommonNamePart(parts[i])
    requires forall j :: 0 <= j < i ==> !IsCommonNamePart(parts[j])
    ensures FirstCommonName(parts) == Some(Strip(parts[i])[3..])
  {
    if i > 0 {
      assert !IsCommonNamePart(parts[0]);
      assert parts[1..][i - 1] == parts[i];
      FirstCommonNameAt(parts[1..], i - 1);
    }
  }

  lemma {:induction false} FirstCommonNameNone(parts: seq<string>)
    requires forall j :: 0 <= j < |parts| ==> !IsCommonNamePart(parts[j])
    ensures FirstCommonName(parts) == None
  {
    if parts != [] {
      assert forall j :: 0 <= j < |parts| - 1 ==> parts[1..][j] == parts[j + 1];
      FirstCommonNameNone(parts[1..]);
    }
  }

  /** When the i-th component of the subject is the first CN component, the
      Common Name is that component, stripped, after "CN=". */
  lemma CommonNameIsFirstCN(cert: CertificateInfo, i: nat)
    requires i < |Split(cert.subject, ',')|
    requires IsCommonNamePart(Split(cert.subject, ',')[i])
    requires forall j :: 0 <= j < i ==> !IsCommonNamePart(Split(cert.subject, ',')[j])
    ensures CommonName(cert) == Strip(Split(cert.subject, ',')[i])[3..]
  {
    FirstCommonNameAt(Split(cert.subject, ','), i);
  }

  /** Without any CN component the Common Name is the whole subject. */
  lemma CommonNameFallsBackToSubject(cert: CertificateInfo)
    requires forall j :: 0 <= j < |Split(cert.subject, ',')| ==> !IsCommonNamePart(Split(cert.subject, ',')[j])
    ensures CommonName(cert) == cert.subject
  {
    FirstCommonNameNone(Split(cert.subject, ','));
  }

  // ---------------------------------------------------------------------------
  // Issuer family
  // ---------------------------------------------------------------------------

  datatype IssuerKind = Fnmt | Aca | Dnie | Camerfirma | Other

  /** The label `issuer_type` returns for each family. */
  function KindName(k: IssuerKind): string {
    match k
    case Fnmt => "FNMT"
    case Aca => "ACA"
    case Dnie => "DNIe"
    case Camerfirma => "Camerfirma"
    case Other => "Otro"
  }

  /** `CertificateInfo.issuer_type`: tests on the lower-cased issuer, in this order. */
  function IssuerType(issuer: string): IssuerKind {
    var low := Lower(issuer);
    if Contains(low, "fnmt") || Contains(low, "fabrica nacional") then Fnmt
    else if Contains(low, "aca") || Contains(low, "autoritat de certificacio") then Aca
    else if Contains(low, "dnie") || Contains(low, "direccion general de la policia") then Dnie
    else if Contains(low, "camerfirma") then Camerfirma
    else Other
  }

  /** The recognised families, highest priority first. */
  const Priority: seq<IssuerKind> := [Fnmt, Aca, Dnie, Camerfirma]

  /** The lower-case markers by which each family is recognised. */
  function Markers(k: IssuerKind): seq<string> {
    match k
    case Fnmt => ["fnmt", "fabrica nacional"]
    case Aca => ["aca", "autoritat de certificacio"]
    case Dnie => ["dnie", "direccion general de la policia"]
    case Camerfirma => ["camerfirma"]
    case Other => []
  }

  /** Some marker of family `k` occurs in the issuer, ignoring ASCII case. */
  predicate Mentions(issuer: string, k: IssuerKind) {
    exists j :: 0 <= j < |Markers(k)| && Contains(Lower(issuer), Markers(k)[j])
  }

  /** The classification is first-match: the family at position i of the
      priority order wins exactly when it is mentioned and no earlier one is. */
  lemma IssuerTypeIsFirstMention(issuer: string, i: nat)
    requires i < |Priority|
    ensures IssuerType(issuer) == Priority[i] <==>
      Mentions(issuer, Priority[i]) && forall j :: 0 <= j < i ==> !Mentions(issuer, Priority[j])
  {
    var low := Lower(issuer);
    assert Mentions(issuer, Fnmt) <==> Contains(low, "fnmt") || Contains(low, "fabrica nacional") by {
      assert Markers(Fnmt)[0] == "fnmt" && Markers(Fnmt)[1] == "fabrica nacional";
    }
    assert Mentions(issuer, Aca) <==> Contains(low, "aca") || Contains(low, "autoritat de certificacio") by {
      assert Markers(Aca)[0] == "aca" && Markers(Aca)[1] == "autoritat de certificacio";
    }
    assert Mentions(issuer, Dnie) <==> Contains(low, "dnie") || Contains(low, "direccion general de la policia") by {
      assert Markers(Dnie)[0] == "dnie" && Markers(Dnie)[1] == "direccion general de la policia";
    }
    assert Mentions(issuer, Camerfirma) <==> Contains(low, "camerfirma") by {
      assert Markers(Camerfirma)[0] == "camerfirma";
    }
    assert Priority[0] == Fnmt && Priority[1] == Aca && Priority[2] == Dnie && Priority[3] == Camerfirma;
    if i >= 1 {
      assert (forall j :: 0 <= j < i ==> !Mentions(issuer, Priority[j])) <==>
        (forall j :: 0 <= j < i - 1 ==> !Mentions(issuer, Priority[j])) && !Mentions(issuer, Priority[i - 1]);
    }
  }

  /** An issuer falls into "Otro" exactly when it mentions no family. */
  lemma IssuerTypeOther(issuer: string)
    ensures IssuerType(issuer) == Other <==> forall i :: 0 <= i < |Priority| ==> !Mentions(issuer, Priority[i])
  {
    IssuerTypeIsFirstMention(issuer, 0);
    IssuerTypeIsFirstMention(issuer, 1);
    IssuerTypeIsFirstMention(issuer, 2);
    IssuerTypeIsFirstMention(issuer, 3);
  }

  /** The classification does not depend on the case of the issuer's letters. */
  lemma IssuerTypeIgnoresCase(issuer: string)
    ensures IssuerType(Upper(issuer)) == IssuerType(issuer)
  {
    LowerOfUpper(issuer);
  }

  // ---------------------------------------------------------------------------
  // Validity, lookups and filters
  // ---------------------------------------------------------------------------

  /** `CertificateInfo.is_valid` at instant `now`. */
  predicate IsValid(cert: CertificateInfo, now: int) {
    cert.validFrom <= now <= cert.validTo
  }

  /** `get_valid_certificates` on an already listed sequence. */
  function ValidCertificates(certs: seq<CertificateInfo>, now: int): (r: seq<CertificateInfo>)
    ensures IsSubsequence(r, certs)
    ensures forall i :: 0 <= i < |r| ==> IsValid(r[i], now)
    ensures forall i :: 0 <= i < |certs| && IsValid(certs[i], now) ==> certs[i] in r
  {
    Filter(certs, c => IsValid(c, now))
  }

  /** The issuer test of `get_certificates_by_issuer`: the family label and
      the query agree once both are upper-cased. */
  predicate IssuerMatches(cert: CertificateInfo, query: string) {
    Upper(KindName(IssuerType(cert.issuer))) == Upper(query)
  }

  /** `get_certificates_by_issuer` on an already listed sequence. */
  function CertificatesByIssuer(certs: seq<CertificateInfo>, query: string): (r: seq<CertificateInfo>)
    ensures IsSubsequence(r, certs)
    ensures forall i :: 0 <= i < |r| ==> IssuerMatches(r[i], query)
    ensures forall i :: 0 <= i < |certs| && IssuerMatches(certs[i], query) ==> certs[i] in r
  {
    Filter(certs, c => IssuerMatches(c, query))
  }

  /** Different families have labels that differ even ignoring case. */
  lemma KindNamesDistinct(k1: IssuerKind, k2: IssuerKind)
    requires k1 != k2
    ensures Upper(KindName(k1)) != Upper(KindName(k2))
  {
    var u1, u2 := Upper(KindName(k1)), Upper(KindName(k2));
    if |u1| == |u2| {
      assert u1[0] == UpperChar(KindName(k1)[0]) && u2[0] == UpperChar(KindName(k2)[0]);
      assert u1[1] == UpperChar(KindName(k1)[1]) && u2[1] == UpperChar(KindName(k2)[1]);
    }
  }

  /** Asking for a family by its label, in any case, selects exactly the
      certificates of that family. */
  lemma CertificatesByIssuerSelectsFamily(certs: seq<CertificateInfo>, k: IssuerKind, query: string)
    requires Upper(query) == Upper(KindName(k))
    ensures forall i :: 0 <= i < |CertificatesByIssuer(certs, query)| ==>
      IssuerType(CertificatesByIssuer(certs, query)[i].issuer) == k
    ensures forall i :: 0 <= i < |certs| && IssuerType(certs[i].issuer) == k ==>
      certs[i] in CertificatesByIssuer(certs, query)
  {
    var r := CertificatesByIssuer(certs, query);
    forall i | 0 <= i < |r| ensures IssuerType(r[i].issuer) == k {
      if IssuerType(r[i].issuer) != k {
        KindNamesDistinct(IssuerType(r[i].issuer), k);
      }
    }
  }

  /** The thumbprint test of `get_certificate_by_thumbprint`. */
  predicate ThumbprintMatches(cert: CertificateInfo, thumbprint: string) {
    Upper(cert.thumbprint) == Upper(thumbprint)
  }

  /** The search loop of `get_certificate_by_thumbprint` on an already listed
      sequence: the first certificate whose thumbprint matches ignoring case. */
  method FindByThumbprint(certs: seq<CertificateInfo>, thumbprint: string) returns (r: Option<CertificateInfo>)
    ensures r.None? <==> forall i :: 0 <= i < |certs| ==> !ThumbprintMatches(certs[i], thumbprint)
    ensures r.Some? ==> exists i :: (0 <= i < |certs| && certs[i] == r.value && ThumbprintMatches(certs[i], thumbprint)
      && forall j :: 0 <= j < i ==> !ThumbprintMatches(certs[j], thumbprint))
  {
    for i := 0 to |certs|
      invariant forall j :: 0 <= j < i ==> !ThumbprintMatches(certs[j], thumbprint)
    {
      if Upper(certs[i].thumbprint) == Upper(thumbprint) {
        return Some(certs[i]);
      }
    }
    return None;
  }

  /** What `list_certificates` returns from a given cache state: the cached
      list when loaded and not refreshing; otherwise the store's list, or the
      empty list off Windows or when reading the store failed. */
  function Listing(loaded: bool, cached: seq<CertificateInfo>, refresh: bool,
                   onWindows: bool, store: Option<seq<CertificateInfo>>): seq<CertificateInfo>
  {
    if loaded && !refresh then cached
    else if onWindows && store.Some? then store.value
    else []
  }

  /** The manager's load-once cache of the certificate list. */
  class CertificateManager {
    var certificates: seq<CertificateInfo>
    var loaded: bool

    constructor ()
      ensures certificates == [] && !loaded
    {
      certificates := [];
      loaded := false;
    }

    /** `list_certificates(refresh)`. `onWindows` is the platform test and
        `store` what reading the Windows store gives (None: it raised). */
    method ListCertificates(refresh: bool, onWindows: bool, store: Option<seq<CertificateInfo>>)
      returns (r: seq<CertificateInfo>)
      modifies this
      ensures r == Listing(old(loaded), old(certificates), refresh, onWindows, store)
      ensures old(loaded) && !refresh ==> certificates == old(certificates) && loaded
      ensures !(old(loaded) && !refresh) && onWindows && store.Some? ==> certificates == r && loaded
      ensures !(old(loaded) && !refresh) && !(onWindows && store.Some?) ==>
        certificates == [] && loaded == old(loaded)
    {
      if loaded && !refresh {
        return certificates;
      }
      certificates := [];
      if !onWindows {
        return [];
      }
      if store.None? {
        return [];
      }
      certificates := store.value;
      loaded := true;
      return certificates;
    }

    /** `get_certificate_by_thumbprint`: list (through the cache), then search. */
    method GetCertificateByThumbprint(thumbprint: string, onWindows: bool, store: Option<seq<CertificateInfo>>)
      returns (r: Option<CertificateInfo>)
      modifies this
      ensures var listed := Listing(old(loaded), old(certificates), false, onWindows, store);
        && (r.None? <==> forall i :: 0 <= i < |listed| ==> !ThumbprintMatches(listed[i], thumbprint))
        && (r.Some? ==> exists i :: (0 <= i < |listed| && listed[i] == r.value && ThumbprintMatches(listed[i], thumbprint)
              && forall j :: 0 <= j < i ==> !ThumbprintMatches(listed[j], thumbprint)))
      ensures old(loaded) ==> certificates == old(certificates) && loaded
      ensures !old(loaded) && onWindows && store.Some? ==> certificates == store.value && loaded
      ensures !old(loaded) && !(onWindows && store.Some?) ==> certificates == [] && !loaded
    {
      var listed := ListCertificates(false, onWindows, store);
      r := FindByThumbprint(listed, thumbprint);
    }

    /** `get_valid_certificates` at instant `now`. */
    method GetValidCertificates(now: int, onWindows: bool, store: Option<seq<CertificateInfo>>)
      returns (r: seq<CertificateInfo>)
      modifies this
      ensures r == ValidCertificates(Listing(old(loaded), old(certificates), false, onWindows, store), now)
      ensures old(loaded) ==> certificates == old(certificates) && loaded
      ensures !old(loaded) && onWindows && store.Some? ==> certificates == store.value && loaded
      ensures !old(loaded) && !(onWindows && store.Some?) ==> certificates == [] && !loaded
    {
      var listed := ListCertificates(false, onWindows, store);
      r := ValidCertificates(listed, now);
    }

    /** `get_certificates_by_issuer(issuer_type)`. */
    method GetCertificatesByIssuer(query: string, onWindows: bool, store: Option<seq<CertificateInfo>>)
      returns (r: seq<CertificateInfo>)
      modifies this
      ensures r == CertificatesByIssuer(Listing(old(loaded), old(certificates), false, onWindows, store), query)
      ensures old(loaded) ==> certificates == old(certificates) && loaded
      ensures !old(loaded) && onWindows && store.Some? ==> certificates == store.value && loaded
      ensures !old(loaded) && !(onWindows && store.Some?) ==> certificates == [] && !loaded
    {
      var listed := ListCertificates(false, onWindows, store);
      r := CertificatesByIssuer(listed, query);
    }
  }

  // ---------------------------------------------------------------------------
  // load_certificate_from_file
  // ---------------------------------------------------------------------------

  /** What opening the file with the PKCS#12 library gives. */
  datatype Pkcs12Outcome =
    | Parsed(subject: string)           // a certificate was found; its RFC 4514 subject
    | NoCertificate                     // the bundle holds no certificate
    | ParseError(message: string)       // the library rejected the bundle
    | LibraryMissing                    // `cryptography` is not installed
    | Failed(message: string)           // reading the file raised

  /** The extensions accepted, compared after lower-casing. */
  predicate AcceptedExtension(ext: string) {
    Lower(ext) == ".pfx" || Lower(ext) == ".p12"
  }

  /** The length of the drive `ntpath.splitdrive` takes off: a letter and a colon. */
  function DriveLength(path: string): nat {
    if |path| >= 2 && path[1] == ':' then 2 else 0
  }

  /** `ntpath.basename`: the text after the last separator, once the drive
      is taken off. */
  function BaseName(path: string): (name: string)
    ensures |name| <= |path| - DriveLength(path) && name == path[|path| - |name|..]
    ensures '/' !in name && '\\' !in name
    ensures |name| < |path| - DriveLength(path) ==>
      path[|path| - |name| - 1] == '/' || path[|path| - |name| - 1] == '\\'
  {
    var rest := path[DriveLength(path)..];
    var back := LastIndexOf(rest, '\\');
    var slash := LastIndexOf(rest, '/');
    rest[(if back < slash then slash else back) + 1..]
  }

  /** `load_certificate_from_file(filepath, password)`, returning the
      `(success, message)` pair; `fileExists` is `os.path.exists(filepath)`. */
  function LoadCertificateFromFile(path: string, fileExists: bool, outcome: Pkcs12Outcome): (r: (bool, string))
    ensures !fileExists ==> r == (false, "El archivo no existe: " + path)
    ensures fileExists && !AcceptedExtension(Extension(path)) ==>
      r == (false, "Formato no soportado: " + Lower(Extension(path)) + ". Use .pfx o .p12")
    ensures r.0 <==> fileExists && AcceptedExtension(Extension(path)) && (outcome.Parsed? || outcome.LibraryMissing?)
    ensures fileExists && AcceptedExtension(Extension(path)) && outcome.Parsed? ==>
      r.1 == "Certificado v\U{e1}lido: " + outcome.subject
    ensures fileExists && AcceptedExtension(Extension(path)) && outcome.LibraryMissing? ==>
      r.1 == "Archivo encontrado: " + BaseName(path) + " (sin validaci\U{f3}n)"
    ensures fileExists && AcceptedExtension(Extension(path)) && outcome.ParseError? ==>
      (r.1 == "Contrase\U{f1}a incorrecta" <==>
        Contains(Lower(outcome.message), "password") || Contains(Lower(outcome.message), "mac"))
  {
    if !fileExists then (false, "El archivo no existe: " + path)
    else
      var ext := Lower(Extension(path));
      if ext != ".pfx" && ext != ".p12" then (false, "Formato no soportado: " + ext + ". Use .pfx o .p12")
      else
        match outcome
        case Parsed(subject) => (true, "Certificado v\U{e1}lido: " + subject)
        case NoCertificate => (false, "El archivo no contiene un certificado v\U{e1}lido")
        case ParseError(message) =>
          var low := Lower(message);
          if Contains(low, "password") || Contains(low, "mac") then (false, "Contrase\U{f1}a incorrecta")
          else (false, "Error cargando certificado: " + message)
        case LibraryMissing => (true, "Archivo encontrado: " + BaseName(path) + " (sin validaci\U{f3}n)")
        case Failed(message) => (false, "Error: " + message)
  }

  /** The extension gate ignores case: a ".PFX" file is accepted like a ".pfx" one. */
  lemma UpperCasePfxAccepted(stem: string, subject: string)
    requires |stem| >= 1 && stem[|stem| - 1] != '.' && stem[|stem| - 1] != '/' && stem[|stem| - 1] != '\\'
    ensures LoadCertificateFromFile(stem + ".PFX", true, Parsed(subject)).0
  {
    ExtensionOfName(stem, ".PFX");
    var low := Lower(".PFX");
    assert low[0] == '.' && low[1] == 'p' && low[2] == 'f' && low[3] == 'x';
    assert low == ".pfx";
  }
}
