/** The encouragement messages and their lookups. */
module Messages {
  import opened Wrappers

  const PositiveMessages: seq<string> := [
    "Haz que hoy cuente",
    "Pequeños pasos, grandes cambios",
    "Lo importante es empezar",
    "Celebra tus avances",
    "Tu tiempo es valioso",
    "Respira, enfoca, actúa",
    "Sigue creando momentos",
    "Una meta cada vez",
    "El presente es tuyo",
    "Construye recuerdos",
    "Cada segundo importa",
    "Vive con propósito",
    "Crea tu mejor versión",
    "El cambio empieza hoy",
    "Tus metas te esperan"
  ]

  /** JavaScript's `index % 15`: the remainder takes the sign of the dividend. */
  function JsRemainder15(index: int): (r: int)
    ensures index >= 0 ==> r == index % 15
    ensures -15 < r < 15
    ensures r == 0 <==> index % 15 == 0
    ensures index < 0 ==> r <= 0 && (index - r) % 15 == 0
  {
    if index >= 0 then index % 15 else -((-index) % 15)
  }

  /** `positiveMessages[index % positiveMessages.length]`: None where a negative
      remainder indexes outside the list (undefined). A negative multiple of 15
      leaves -0, which reads the first entry. */
  function GetPositiveMessageByIndex(index: int): (m: Option<string>)
    ensures index >= 0 ==> m == Some(PositiveMessages[index % 15])
    ensures m.Some? ==> m.value in PositiveMessages
    ensures m.None? <==> index < 0 && index % 15 != 0
  {
    var i := JsRemainder15(index);
    if i >= 0 then Some(PositiveMessages[i]) else None
  }

  /** Indices fifteen apart on the same side of zero give the same message. */
  lemma MessagePeriod(index: int)
    requires index >= 0 || index + 15 <= 0
    ensures GetPositiveMessageByIndex(index + 15) == GetPositiveMessageByIndex(index)
  {
    if index >= 0 {
      assert (index + 15) % 15 == index % 15;
      assert JsRemainder15(index + 15) == JsRemainder15(index);
    } else {
      var n := -(index + 15);
      assert (n + 15) % 15 == n % 15;
      assert JsRemainder15(index + 15) == JsRemainder15(index);
    }
  }

  lemma MessageExamples()
    ensures |PositiveMessages| == 15
    ensures GetPositiveMessageByIndex(0) == Some("Haz que hoy cuente")
    ensures GetPositiveMessageByIndex(15) == Some("Haz que hoy cuente")
    ensures GetPositiveMessageByIndex(-1) == None
    ensures GetPositiveMessageByIndex(-15) == Some("Haz que hoy cuente")
  {
  }

  /** `positiveMessages[Math.floor(r * length)]` for a draw `r` in [0, 1). */
  function GetRandomPositiveMessage(r: real): (m: string)
    requires 0.0 <= r < 1.0
    ensures m in PositiveMessages
    ensures m == PositiveMessages[(r * 15.0).Floor]
  {
    PositiveMessages[(r * 15.0).Floor]
  }
}
