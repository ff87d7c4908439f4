/** Arithmetic shared by the page walk and the retry loop. */
module Numbers {
  function Min(a: nat, b: nat): nat {
    if a < b then a else b
  }
}
