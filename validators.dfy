/**
 * Field validators of the guest form (`utils/validators.py`). Each returns a pair
 * (valid, message); the message is empty exactly when the value is valid.
 * Regular expressions are given by the predicates below, over ASCII digits and letters.
 */
module Validators {
  import opened Base
  import opened Text
  import opened CharMaps
  import opened Dates
  import opened PyNum

  /** The `(bool, str)` pair every validator returns. */
  datatype Check = Check(ok: bool, msg: String)

  const Valid := Check(true, "")

  const DniMsg := "El DNI debe tener 7 u 8 dígitos numéricos"
  const PasaporteMsg := "El pasaporte debe tener entre 5 y 15 caracteres alfanuméricos"
  const NoDocumentMsg := "Debe ingresar al menos DNI o Pasaporte"
  const TelefonoMsg := "Formato de teléfono inválido"
  const EdadNotIntMsg := "La edad debe ser un número entero"
  const EdadRangeMsg := "La edad debe estar entre 1 y 149 años"
  const EntradaMissingMsg := "La fecha de entrada es obligatoria"
  const EntradaFutureMsg := "La fecha de entrada no puede ser futura"
  const DateFormatMsg := "Formato de fecha inválido. Use AAAA-MM-DD"
  const SalidaBeforeMsg := "La fecha de salida no puede ser anterior a la de entrada"

  /** `^\d{7,8}$`. */
  predicate DniShape(s: String) { AllDigits(s) && 7 <= |s| <= 8 }

  /** `^[A-Za-z0-9]{5,15}$`. */
  predicate PasaporteShape(s: String) { AllAlnum(s) && 5 <= |s| <= 15 }

  /** `^[\+\-\d\s\(\)]{6,20}$`. */
  predicate TelefonoShape(s: String)
  {
    6 <= |s| <= 20
    && forall i :: 0 <= i < |s| ==> TelefonoChar(s[i])
  }

  predicate TelefonoChar(c: char)
  {
    c == '+' || c == '-' || IsDigit(c) || IsSpace(c) || c == '(' || c == ')'
  }

  /** Accented letters the name pattern admits: `áéíóúñÁÉÍÓÚÑüÜ`. */
  predicate AccentedLetter(c: char)
  {
    c == 'á' || c == 'é' || c == 'í' || c == 'ó' || c == 'ú' || c == 'ñ'
    || c == 'Á' || c == 'É' || c == 'Í' || c == 'Ó' || c == 'Ú' || c == 'Ñ'
    || c == 'ü' || c == 'Ü'
  }

  predicate NombreChar(c: char)
  {
    IsLetter(c) || AccentedLetter(c) || IsSpace(c) || c == '\'' || c == '-'
  }

  /** `^[A-Za-záéíóúñÁÉÍÓÚÑüÜ\s\'\-]{2,100}$`. */
  predicate NombreShape(s: String)
  {
    2 <= |s| <= 100 && forall i :: 0 <= i < |s| ==> NombreChar(s[i])
  }

  /** `validar_dni`: blank is accepted (the document is conditional); no cleaning. */
  function ValidarDni(dni: String): (r: Check)
    ensures r.ok <==> IsBlank(dni) || DniShape(Strip(dni))
    ensures r.msg == (if r.ok then "" else DniMsg)
  {
    StripBlank(dni);
    if Strip(dni) == [] then Valid
    else if DniShape(Strip(dni)) then Valid
    else Check(false, DniMsg)
  }

  /** `validar_pasaporte`: blank is accepted; otherwise the stripped text must be 5-15 letters or digits. */
  function ValidarPasaporte(pasaporte: String): (r: Check)
    ensures r.ok <==> IsBlank(pasaporte) || PasaporteShape(Strip(pasaporte))
    ensures r.msg == (if r.ok then "" else PasaporteMsg)
  {
    StripBlank(pasaporte);
    if Strip(pasaporte) == [] then Valid
    else if PasaporteShape(Strip(pasaporte)) then Valid
    else Check(false, PasaporteMsg)
  }

  /** The messages of the documents present and invalid, DNI first. */
  function DocumentErrors(dni: String, pasaporte: String): seq<String>
  {
    (if !ValidarDni(dni).ok then [DniMsg] else [])
    + (if !ValidarPasaporte(pasaporte).ok then [PasaporteMsg] else [])
  }

  /** `validar_dni_o_pasaporte`: at least one document, and every document given is valid. */
  function ValidarDniOPasaporte(dni: String, pasaporte: String): (r: Check)
    ensures IsBlank(dni) && IsBlank(pasaporte) ==> r == Check(false, NoDocumentMsg)
    ensures r.ok <==> !(IsBlank(dni) && IsBlank(pasaporte))
                      && (IsBlank(dni) || DniShape(Strip(dni)))
                      && (IsBlank(pasaporte) || PasaporteShape(Strip(pasaporte)))
    ensures !(IsBlank(dni) && IsBlank(pasaporte)) ==> r.msg == Join("; ", DocumentErrors(dni, pasaporte))
  {
    StripBlank(dni);
    StripBlank(pasaporte);
    var tieneDni := Strip(dni) != [];
    var tienePasaporte := Strip(pasaporte) != [];
    if !tieneDni && !tienePasaporte then Check(false, NoDocumentMsg)
    else
      var errors := DocumentErrors(dni, pasaporte);
      if errors != [] then Check(false, Join("; ", errors)) else Valid
  }

  /** `validar_telefono`: optional; otherwise 6-20 characters among `+ - ( )`, digits and blanks. */
  function ValidarTelefono(telefono: String): (r: Check)
    ensures r.ok <==> IsBlank(telefono) || TelefonoShape(Strip(telefono))
    ensures r.msg == (if r.ok then "" else TelefonoMsg)
  {
    StripBlank(telefono);
    if Strip(telefono) == [] then Valid
    else if TelefonoShape(Strip(telefono)) then Valid
    else Check(false, TelefonoMsg)
  }

  /** `validar_nombre`: required, at least two characters, then the name pattern decides. */
  function ValidarNombre(valor: String, campo: String): (r: Check)
    ensures IsBlank(valor) ==> r == Check(false, campo + " es obligatorio")
    ensures r.ok <==> !IsBlank(valor) && NombreShape(Strip(valor))
    ensures r.ok ==> r.msg == ""
    ensures !IsBlank(valor) && |Strip(valor)| < 2 ==> r == Check(false, campo + " debe tener al menos 2 caracteres")
  {
    StripBlank(valor);
    var limpio := Strip(valor);
    if limpio == [] then Check(false, campo + " es obligatorio")
    else if |limpio| < 2 then Check(false, campo + " debe tener al menos 2 caracteres")
    else if NombreShape(limpio) then Valid
    else Check(false, campo + " contiene caracteres no válidos")
  }

  /** The argument of `validar_edad`: `None`, a string or an integer. */
  datatype EdadArg = NoEdad | EdadText(text: String) | EdadInt(n: int)

  /** `validar_edad`: optional; `int(edad)` must succeed and lie in 1..149. */
  function ValidarEdad(edad: EdadArg): (r: Check)
    ensures edad.NoEdad? || (edad.EdadText? && IsBlank(edad.text)) ==> r == Valid
    ensures edad.EdadText? && !IsBlank(edad.text) && PyInt(edad.text).None? ==> r == Check(false, EdadNotIntMsg)
    ensures edad.EdadInt? ==> (r.ok <==> 1 <= edad.n <= 149)
    ensures edad.EdadText? && PyInt(edad.text).Some? ==> (r.ok <==> 1 <= PyInt(edad.text).value <= 149)
    ensures r.msg == "" || r.msg == EdadNotIntMsg || r.msg == EdadRangeMsg
    ensures r.ok <==> r.msg == ""
  {
    match edad
    case NoEdad => Valid
    case EdadText(t) =>
      StripBlank(t);
      if Strip(t) == [] then Valid
      else (match PyInt(t)
        case None => Check(false, EdadNotIntMsg)
        case Some(n) => EdadInRange(n))
    case EdadInt(n) => EdadInRange(n)
  }

  function EdadInRange(n: int): (r: Check)
    ensures r.ok <==> 1 <= n <= 149
    ensures r.msg == (if r.ok then "" else EdadRangeMsg)
  {
    if n < 1 || n > 149 then Check(false, EdadRangeMsg) else Valid
  }

  /** A date argument: text to be read as `%Y-%m-%d`, or a `date`. */
  datatype DateArg = DateText(text: String) | DateValue(date: Date)

  /** `not fecha`: only the empty string is falsy among the accepted argument types. */
  predicate Falsy(a: Option<DateArg>)
  {
    a.None? || (a.Some? && a.value.DateText? && a.value.text == [])
  }

  /** The date an argument denotes, `None` where `strptime` raises `ValueError`. */
  function ReadDate(a: DateArg): (r: Option<Date>)
    ensures a.DateText? ==> r == Strptime(Strip(a.text), IsoFormat)
  {
    match a
    case DateText(t) => Strptime(Strip(t), IsoFormat)
    case DateValue(d) => Some(d)
  }

  /** `validar_fecha_entrada` with `date.today()` passed as `today`: required, readable, not future. */
  function ValidarFechaEntrada(fecha: Option<DateArg>, today: Date): (r: Check)
    ensures Falsy(fecha) ==> r == Check(false, EntradaMissingMsg)
    ensures !Falsy(fecha) && ReadDate(fecha.value).None? ==> r == Check(false, DateFormatMsg)
    ensures r.ok <==> !Falsy(fecha) && ReadDate(fecha.value).Some? && !Before(today, ReadDate(fecha.value).value)
    ensures r.ok ==> r.msg == ""
  {
    if Falsy(fecha) then Check(false, EntradaMissingMsg)
    else match ReadDate(fecha.value)
      case None => Check(false, DateFormatMsg)
      case Some(d) => if Before(today, d) then Check(false, EntradaFutureMsg) else Valid
  }

  /**
   * `validar_fecha_salida`: a missing exit date is accepted; otherwise both dates must be
   * readable and the exit must not precede the entry (the same day is accepted).
   */
  function ValidarFechaSalida(salida: Option<DateArg>, entrada: DateArg): (r: Check)
    ensures Falsy(salida) ==> r == Valid
    ensures !Falsy(salida) && ReadDate(salida.value).Some? && ReadDate(entrada).Some? ==>
              (r.ok <==> !Before(ReadDate(salida.value).value, ReadDate(entrada).value))
    ensures !Falsy(salida) && (ReadDate(salida.value).None? || ReadDate(entrada).None?) ==> r == Check(false, DateFormatMsg)
    ensures r.ok <==> r.msg == ""
  {
    if Falsy(salida) then Valid
    else match (ReadDate(salida.value), ReadDate(entrada))
      case (Some(s), Some(e)) => if Before(s, e) then Check(false, SalidaBeforeMsg) else Valid
      case _ => Check(false, DateFormatMsg)
  }

  lemma SameDayExitAccepted(d: Date)
    ensures ValidarFechaSalida(Some(DateValue(d)), DateValue(d)).ok
  {
  }

  // ---------------------------------------------------------------- sanitizar_texto

  /**
   * `sanitizar_texto` as written: blanks are collapsed BEFORE the control characters are
   * removed, so a control character standing alone between two blanks leaves a double
   * space behind.
   */
  function SanitizarTextoAsWritten(texto: String): (r: String)
    ensures NoControl(r)
  {
    if texto == [] then [] else RemoveControls(Join(" ", Words(Strip(texto))))
  }

  /**
   * `sanitizar_texto` as its docstring means it: the written steps, then the blanks that the
   * removal of a lone control character leaves behind collapsed once more.
   */
  function SanitizarTexto(texto: String): (r: String)
  {
    Join(" ", Words(Strip(SanitizarTextoAsWritten(texto))))
  }

  /** Output that reads as clean text: no control characters, single spaces, no edge blanks. */
  predicate CleanText(s: String)
  {
    NoControl(s) && Trimmed(s) && SingleSpaced(s)
    && forall i :: 0 <= i < |s| && IsSpace(s[i]) ==> s[i] == ' '
  }

  lemma {:induction false} JoinWordsClean(ws: seq<String>)
    requires forall k :: 0 <= k < |ws| ==> IsWord(ws[k]) && NoControl(ws[k])
    ensures NoControl(Join(" ", ws))
    ensures forall i :: 0 <= i < |Join(" ", ws)| && IsSpace(Join(" ", ws)[i]) ==> Join(" ", ws)[i] == ' '
  {
    if |ws| > 1 {
      var w, rest := ws[0], Join(" ", ws[1..]);
      JoinWordsClean(ws[1..]);
      var j := w + " " + rest;
      assert Join(" ", ws) == j;
      forall i | 0 <= i < |j|
        ensures !IsControl(j[i]) && (IsSpace(j[i]) ==> j[i] == ' ')
      {
        if i < |w| {
          assert j[i] == w[i];
        } else if i > |w| {
          assert j[i] == rest[i - |w| - 1];
        }
      }
    }
  }

  lemma WordsAllClean(s: String)
    requires NoControl(s)
    ensures forall k :: 0 <= k < |Words(s)| ==> IsWord(Words(s)[k]) && NoControl(Words(s)[k])
  {
    WordsAreWords(s);
    forall k | 0 <= k < |Words(s)| ensures NoControl(Words(s)[k]) {
      WordsNoControl(s, k);
    }
  }

  lemma StripNoControl(s: String)
    requires NoControl(s)
    ensures NoControl(Strip(s))
  {
    StripLocation(s);
  }

  /** The words of control-free text, joined by single spaces, are clean text. */
  lemma CollapseClean(t: String)
    requires NoControl(t)
    ensures CleanText(Join(" ", Words(Strip(t))))
  {
    var u := Strip(t);
    StripNoControl(t);
    WordsAllClean(u);
    var ws := Words(u);
    JoinWordsClean(ws);
    JoinWordsTrimmed(ws);
    JoinWordsSingleSpaced(ws);
  }

  /** Words joined by single spaces split back into the same words. */
  lemma CollapseOfJoin(ws: seq<String>)
    requires forall k :: 0 <= k < |ws| ==> IsWord(ws[k])
    ensures Join(" ", Words(Strip(Join(" ", ws)))) == Join(" ", ws)
  {
    JoinWordsTrimmed(ws);
    StripOfTrimmed(Join(" ", ws));
    WordsOfJoin(ws);
  }

  /** The written steps leave clean words joined by single spaces unchanged. */
  lemma AsWrittenOfJoin(ws: seq<String>)
    requires forall k :: 0 <= k < |ws| ==> IsWord(ws[k]) && NoControl(ws[k])
    ensures SanitizarTextoAsWritten(Join(" ", ws)) == Join(" ", ws)
  {
    JoinWordsClean(ws);
    CollapseOfJoin(ws);
  }

  /** The corrected sanitizer always yields clean text. */
  lemma SanitizarTextoClean(texto: String)
    ensures CleanText(SanitizarTexto(texto))
  {
    CollapseClean(SanitizarTextoAsWritten(texto));
  }

  /** On control-free text the written steps give the words joined by single spaces. */
  lemma SanitizarAsWrittenOfNoControl(texto: String)
    requires NoControl(texto)
    ensures SanitizarTextoAsWritten(texto) == Join(" ", Words(Strip(texto)))
  {
    if texto == [] {
      WordsFromEnd(texto, 0);
    } else {
      StripNoControl(texto);
      WordsAllClean(Strip(texto));
      JoinWordsClean(Words(Strip(texto)));
    }
  }

  /** Sanitizing clean output again changes nothing. */
  lemma SanitizarTextoIdempotent(texto: String)
    ensures SanitizarTexto(SanitizarTexto(texto)) == SanitizarTexto(texto)
  {
    var u := Strip(SanitizarTextoAsWritten(texto));
    StripNoControl(SanitizarTextoAsWritten(texto));
    WordsAllClean(u);
    AsWrittenOfJoin(Words(u));
    CollapseOfJoin(Words(u));
  }

  /** On text without control characters both versions agree. */
  lemma SanitizarVersionsAgree(texto: String)
    requires NoControl(texto)
    ensures SanitizarTextoAsWritten(texto) == SanitizarTexto(texto)
  {
    SanitizarAsWrittenOfNoControl(texto);
    StripNoControl(texto);
    WordsAllClean(Strip(texto));
    CollapseOfJoin(Words(Strip(texto)));
  }

  /** Two words with one blank control character between them split into those two words. */
  lemma WordsAroundBlank(w1: String, c: char, w2: String)
    requires IsWord(w1) && IsWord(w2) && IsSpace(c)
    ensures Words(Strip(w1 + [c] + w2)) == [w1, w2]
    ensures Join(" ", [w1, w2]) == w1 + " " + w2
  {
    var s := w1 + [c] + w2;
    assert s == w1 + ([c] + w2);
    WordsOfWordThen(w1, [c] + w2);
    WordsOfBlankThen(c, w2);
    WordsOfWordThen(w2, []);
    assert w2 + [] == w2;
    WordsFromEnd([], 0);
    assert s[0] == w1[0] && s[|s| - 1] == w2[|w2| - 1];
    StripOfTrimmed(s);
    assert Join(" ", [w1, w2][1..]) == w2;
  }

  /**
   * A tab or a line break between two words becomes one space in both versions:
   * `"GONZALEZ\nJUAN"` gives `"GONZALEZ JUAN"`.
   */
  lemma SanitizarBlankControl(w1: String, c: char, w2: String)
    requires IsWord(w1) && NoControl(w1) && IsWord(w2) && NoControl(w2) && IsSpace(c)
    ensures SanitizarTextoAsWritten(w1 + [c] + w2) == w1 + " " + w2
    ensures SanitizarTexto(w1 + [c] + w2) == w1 + " " + w2
  {
    WordsAroundBlank(w1, c, w2);
    AsWrittenOfJoin([w1, w2]);
    CollapseOfJoin([w1, w2]);
  }

  lemma RemoveLoneControl(w1: String, c: char, w2: String)
    requires NoControl(w1) && NoControl(w2) && IsControl(c)
    ensures RemoveControls(w1 + " " + [c] + " " + w2) == w1 + "  " + w2
  {
    var a := w1 + " ";
    var b := a + [c];
    var d := b + " ";
    assert w1 + " " + [c] + " " + w2 == d + w2;
    RemoveControlsAppend(w1, " ");
    assert RemoveControls(a) == w1 + " ";
    RemoveControlsAppend(a, [c]);
    assert RemoveControls(b) == w1 + " ";
    RemoveControlsAppend(b, " ");
    assert RemoveControls(d) == w1 + "  ";
    RemoveControlsAppend(d, w2);
  }

  /**
   * The written order leaves a double space: a control character standing alone between
   * two words, as in `"a \x00 b"`, becomes `"a  b"`.
   */
  lemma SanitizarAsWrittenDoubleSpace(w1: String, c: char, w2: String)
    requires IsWord(w1) && NoControl(w1) && IsWord(w2) && NoControl(w2)
    requires IsControl(c) && !IsSpace(c)
    ensures SanitizarTextoAsWritten(w1 + " " + [c] + " " + w2) == w1 + "  " + w2
    ensures !SingleSpaced(SanitizarTextoAsWritten(w1 + " " + [c] + " " + w2))
  {
    var ws := [w1, [c], w2];
    var s := w1 + " " + [c] + " " + w2;
    assert IsWord(ws[1]);
    assert Join(" ", ws) == s by {
      assert Join(" ", ws[2..]) == w2;
      assert Join(" ", ws[1..]) == [c] + " " + w2;
    }
    WordsOfJoin(ws);
    JoinWordsTrimmed(ws);
    StripOfTrimmed(s);
    RemoveLoneControl(w1, c, w2);
    var r := w1 + "  " + w2;
    assert r[|w1|] == ' ' && r[|w1| + 1] == ' ';
  }

  /** The corrected sanitizer closes that gap: `"a \x00 b"` becomes `"a b"`. */
  lemma SanitizarFixesDoubleSpace(w1: String, c: char, w2: String)
    requires IsWord(w1) && NoControl(w1) && IsWord(w2) && NoControl(w2)
    requires IsControl(c) && !IsSpace(c)
    ensures SanitizarTexto(w1 + " " + [c] + " " + w2) == w1 + " " + w2
  {
    SanitizarAsWrittenDoubleSpace(w1, c, w2);
    var s := w1 + "  " + w2;
    var t := [' '] + w2;
    assert s == w1 + ([' '] + t);
    WordsOfWordThen(w1, [' '] + t);
    WordsOfBlankThen(' ', t);
    WordsOfBlankThen(' ', w2);
    WordsOfWordThen(w2, []);
    assert w2 + [] == w2;
    WordsFromEnd([], 0);
    assert Words(s) == [w1, w2];
    assert s[0] == w1[0] && s[|s| - 1] == w2[|w2| - 1];
    StripOfTrimmed(s);
    assert Join(" ", [w1, w2][1..]) == w2;
  }
}
