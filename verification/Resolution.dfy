/** Screen sizes as text, such as 1920x1080. */
module Resolution {
  import opened Options
  import opened Strings
  import Codec
  import Decimal

  datatype Result<+T> = Ok(value: T) | Err

  function FormatResolution(width: int, height: int): string {
    if width > 0 && height > 0 then Decimal.Print(width) + ['x'] + Decimal.Print(height) else "unknown"
  }

  function ParseResolution(text: string): Result<(int, int)> {
    var parts := Split(text, 'x');
    if |parts| != 2 then Err
    else
      match Decimal.Atoi(Codec.Trim(parts[0]))
      case None => Err
      case Some(width) =>
        match Decimal.Atoi(Codec.Trim(parts[1]))
        case None => Err
        case Some(height) => Ok((width, height))
  }

  lemma TrimDigits(s: string)
    requires s != [] && forall i :: 0 <= i < |s| ==> Decimal.IsDigit(s[i])
    ensures Codec.Trim(s) == s && 'x' !in s
  {
  }

  /** A positive size is read back as it was printed, and no other size is read back at all. */
  lemma ReadsBackIffPositive(width: int, height: int)
    requires width <= Decimal.MAX_INT && height <= Decimal.MAX_INT
    ensures ParseResolution(FormatResolution(width, height)) ==
            if width > 0 && height > 0 then Ok((width, height)) else Err
  {
    if width > 0 && height > 0 {
      var w, h := Decimal.Print(width), Decimal.Print(height);
      TrimDigits(w);
      TrimDigits(h);
      IndexOfFirst(w, 'x', h);
      assert Split(h, 'x') == [h];
      Decimal.AtoiPrint(width);
      Decimal.AtoiPrint(height);
    } else {
      assert 'x' !in "unknown";
    }
  }
}
