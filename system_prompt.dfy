/**
 * The system prompt the assistant receives: a fixed header, five lines
 * describing the client (each with its default for a missing value), and
 * a fixed description of the company's offer, capabilities and tone.
 */
module SystemPrompt {
  import opened Common
  import opened Text

  /** The fields of the client context the template reads. */
  datatype ClientContext = ClientContext(
    name: string, company: Option<string>, services: Option<seq<string>>,
    openTickets: Option<nat>, pendingInvoices: Option<nat>)

  /** The text before the client lines. */
  const Header: string := "\nEres el asistente virtual de Pedro IT Solutions, una empresa de servicios de IT y ciberseguridad ubicada en Odessa, Texas.\n\nINFORMACI\U{00D3}N DEL CLIENTE:\n"

  /** The text after the client lines. */
  const Footer: string :=
      "\n"
      + "SERVICIOS QUE OFRECEMOS:\n"
      + "1. SOPORTE T\U{00C9}CNICO\n"
      + "   - Soporte remoto: $50/hora\n"
      + "   - Soporte presencial: $75/hora\n"
      + "   - Plan mensual b\U{00E1}sico: $199/mes\n"
      + "\n"
      + "2. ADMINISTRACI\U{00D3}N DE SERVIDORES\n"
      + "   - Setup inicial: desde $500\n"
      + "   - Mantenimiento mensual: desde $299/mes\n"
      + "   - Monitoreo 24/7: $199/mes adicional\n"
      + "\n"
      + "3. CIBERSEGURIDAD\n"
      + "   - Auditor\U{00ED}a de seguridad: desde $1,500\n"
      + "   - Implementaci\U{00F3}n de pol\U{00ED}ticas: desde $2,000\n"
      + "   - Compliance (HIPAA, CJIS): consultar\n"
      + "\n"
      + "4. CONSULTOR\U{00CD}A IT\n"
      + "   - Evaluaci\U{00F3}n de infraestructura: $500\n"
      + "   - Plan de migraci\U{00F3}n a nube: desde $1,000\n"
      + "   - Dise\U{00F1}o de redes: desde $750\n"
      + "\n"
      + "5. DESARROLLO\n"
      + "   - Aplicaciones personalizadas: consultar\n"
      + "   - Integraciones: desde $500\n"
      + "   - Automatizaci\U{00F3}n: desde $300\n"
      + "\n"
      + "TUS CAPACIDADES:\n"
      + "- Responder preguntas sobre nuestros servicios y precios\n"
      + "- Explicar el estado de tickets y facturas del cliente\n"
      + "- Dar soporte t\U{00E9}cnico b\U{00E1}sico y troubleshooting inicial\n"
      + "- Guiar sobre mejores pr\U{00E1}cticas de IT y seguridad\n"
      + "- Recomendar servicios basados en las necesidades del cliente\n"
      + "\n"
      + "LIMITACIONES:\n"
      + "- Para problemas t\U{00E9}cnicos complejos, recomienda abrir un ticket\n"
      + "- No puedes procesar pagos directamente\n"
      + "- No tienes acceso a informaci\U{00F3}n confidencial de otros clientes\n"
      + "- Para cotizaciones personalizadas, sugiere contactar directamente\n"
      + "\n"
      + "TONO Y ESTILO:\n"
      + "- Profesional pero cercano y amigable\n"
      + "- Respuestas concisas y directas\n"
      + "- En espa\U{00F1}ol por defecto, ingl\U{00E9}s si el cliente lo prefiere\n"
      + "- Usa t\U{00E9}rminos t\U{00E9}cnicos solo cuando sea necesario, expl\U{00ED}calos si los usas\n"
      + "\n"
      + "Si el cliente tiene un problema que no puedes resolver, siempre sugiere:\n"
      + "1. Abrir un ticket de soporte para seguimiento\n"
      + "2. Contactar directamente si es urgente\n"
      + "\n"
      + "Recuerda: representas a Pedro IT Solutions, una empresa profesional y confiable.\n"

  const NoCompany: string := "Cliente individual"

  const NoServices: string := "Ninguno a\U{00FA}n"

  /** `client.company || 'Cliente individual'`. */
  function CompanyText(company: Option<string>): (r: string)
    ensures r == NoCompany <==> !Truthy(company) || company.value == NoCompany
    ensures Truthy(company) ==> r == company.value
  {
    if Truthy(company) then company.value else NoCompany
  }

  /** `client.services?.map(s => s.service.name).join(', ') || 'Ninguno aún'`. */
  function ServicesText(names: Option<seq<string>>): (r: string)
  {
    if names.None? || Join(names.value, ", ") == "" then NoServices else Join(names.value, ", ")
  }

  /**
   * The default shows exactly when there is no list, an empty one, or a
   * single service with an empty name: two unnamed services still show
   * the separator.
   */
  lemma ServicesTextDefault(names: Option<seq<string>>)
    ensures ServicesText(names) == NoServices <==>
      names.None? || |names.value| == 0 || (|names.value| == 1 && names.value[0] == "") || Join(names.value, ", ") == NoServices
    ensures names.Some? && |names.value| == 1 && names.value[0] != "" ==> ServicesText(names) == names.value[0]
  {
    if names.Some? {
      JoinEmptyIff(names.value, ", ");
    }
  }

  /** `n || 0` shown as a number: the count, or 0 when absent. */
  function CountText(n: Option<nat>): (r: string)
    ensures AllDigits(r) && ValueOf(r) == n.GetOr(0)
  {
    DecimalRoundTrip(n.GetOr(0));
    Decimal(n.GetOr(0))
  }

  function NameLine(name: string): string
  {
    "- Nombre: " + name + "\n"
  }

  /** The five client lines. */
  function ClientLines(c: ClientContext): string
  {
    NameLine(c.name) + DetailLines(c)
  }

  function DetailLines(c: ClientContext): string
  {
    "- Empresa: " + CompanyText(c.company) + "\n"
    + "- Servicios activos: " + ServicesText(c.services) + "\n"
    + "- Tickets abiertos: " + CountText(c.openTickets) + "\n"
    + "- Facturas pendientes: " + CountText(c.pendingInvoices) + "\n"
  }

  /** `getSystemPrompt(client)`. */
  function Prompt(c: ClientContext): string
  {
    Header + ClientLines(c) + Footer
  }

  /** A text framed by h and f starts with h and ends with f. */
  lemma Framed(h: string, m: string, f: string)
    ensures |h + m + f| >= |h| + |f|
    ensures (h + m + f)[..|h|] == h
    ensures (h + m + f)[|h + m + f| - |f|..] == f
    ensures (h + m + f)[|h|..|h + m + f| - |f|] == m
  {
  }

  /** Every prompt starts with the same header and ends with the same footer. */
  lemma PromptFrame(c: ClientContext)
    ensures |Prompt(c)| >= |Header| + |Footer|
    ensures Prompt(c)[..|Header|] == Header
    ensures Prompt(c)[|Prompt(c)| - |Footer|..] == Footer
  {
    Framed(Header, ClientLines(c), Footer);
  }

  lemma FramedInjective(h: string, m: string, n: string, f: string)
    ensures h + m + f == h + n + f <==> m == n
  {
    if h + m + f == h + n + f {
      Framed(h, m, f);
      Framed(h, n, f);
    }
  }

  /** Two prompts differ only where their client lines differ. */
  lemma PromptsDifferOnlyInClientLines(c: ClientContext, d: ClientContext)
    ensures Prompt(c) == Prompt(d) <==> ClientLines(c) == ClientLines(d)
  {
    FramedInjective(Header, ClientLines(c), ClientLines(d), Footer);
  }

  lemma InfixAtFront(h: string, line: string, tail: string, f: string)
    ensures Contains(h + (line + tail) + f, line)
  {
    assert h + (line + tail) + f == h + line + (tail + f);
    ContainsInfix(h, line, tail + f);
  }

  /** The client's name line occurs in the prompt. */
  lemma PromptNamesClient(c: ClientContext)
    ensures Contains(Prompt(c), NameLine(c.name))
  {
    InfixAtFront(Header, NameLine(c.name), DetailLines(c), Footer);
  }
}
