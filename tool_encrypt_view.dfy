/** The state of the encrypt/decrypt tool (`ToolEncryptView.ts`): the five
    refs of the component as the fields of a class, and the two handlers
    that change them, `processText` and `clearFields`. The cipher
    functions are those of `CryptoUtils`, evaluated on the platform `p`. */
module ToolEncryptView {
  import opened JsRuntime
  import opened CryptoUtils

  /** A call from the view into the crypto helpers, with its arguments. */
  datatype CipherCall =
    | EncryptCall(plaintext: string, password: string)
    | DecryptCall(encryptedData: string, password: string)

  /** What the called helper resolves or rejects with: a rejection is
      always an `Error` carrying the prefix of the helper called. */
  function Invoke(p: Provider, call: CipherCall): (r: Result<string>)
    ensures r.Threw? ==> r.error.ErrorObject?
    ensures r.Threw? && call.EncryptCall? ==> EncryptFailurePrefix <= r.error.message
    ensures r.Threw? && call.DecryptCall? ==> DecryptFailurePrefix <= r.error.message
  {
    match call
    case EncryptCall(t, pw) => EncryptWithPassword(p, t, pw)
    case DecryptCall(d, pw) => DecryptWithPassword(p, d, pw)
  }

  /** The helper `processText` calls for an operation type: "encrypt"
      encrypts, any other value decrypts. Input and password are passed
      as they are, untrimmed. */
  function Dispatch(operationType: string, inputText: string, password: string): (call: CipherCall)
    ensures call.EncryptCall? <==> operationType == "encrypt"
    ensures call.password == password
    ensures call.EncryptCall? ==> call.plaintext == inputText
    ensures call.DecryptCall? ==> call.encryptedData == inputText
  {
    if operationType == "encrypt" then EncryptCall(inputText, password)
    else DecryptCall(inputText, password)
  }

  class EncryptTool {
    var inputText: string
    var password: string
    var outputText: string
    var isProcessing: bool
    var operationType: string

    /** The refs as `setup` declares them. */
    constructor ()
      ensures inputText == "" && password == "" && outputText == ""
      ensures !isProcessing && operationType == "encrypt"
    {
      inputText := "";
      password := "";
      outputText := "";
      isProcessing := false;
      operationType := "encrypt";
    }

    /** `processText`. Returns the cipher call it made, `None` when a guard
        stopped it. A blank input, or else a blank password, changes
        nothing. Otherwise the input and password go untrimmed to the
        helper chosen by `operationType`; its result replaces the output
        only on success, and `isProcessing` ends false either way. */
    method ProcessText(p: Provider) returns (called: Option<CipherCall>)
      modifies this
      ensures inputText == old(inputText) && password == old(password)
      ensures operationType == old(operationType)
      ensures Blank(old(inputText)) || Blank(old(password)) ==>
        called == None && outputText == old(outputText) && isProcessing == old(isProcessing)
      ensures !Blank(old(inputText)) && !Blank(old(password)) ==>
        && called == Some(Dispatch(old(operationType), old(inputText), old(password)))
        && !isProcessing
        && outputText == match Invoke(p, called.value)
                         case Ok(result) => result
                         case Threw(_) => old(outputText)
    {
      if Blank(inputText) {
        return None;
      }
      if Blank(password) {
        return None;
      }
      isProcessing := true;
      var call := Dispatch(operationType, inputText, password);
      called := Some(call);
      var result := Invoke(p, call);
      match result {
        case Ok(text) =>
          outputText := text;
          isProcessing := false;
        case Threw(_) =>
          isProcessing := false;
      }
    }

    /** The radio buttons' `onUpdate:modelValue` handler. */
    method SetOperationType(value: string)
      modifies this
      ensures operationType == value
      ensures inputText == old(inputText) && password == old(password)
      ensures outputText == old(outputText) && isProcessing == old(isProcessing)
    {
      operationType := value;
    }

    /** The input text area's `onUpdate:modelValue` handler. */
    method SetInputText(value: string)
      modifies this
      ensures inputText == value
      ensures password == old(password) && operationType == old(operationType)
      ensures outputText == old(outputText) && isProcessing == old(isProcessing)
    {
      inputText := value;
    }

    /** `clearFields`: empties input and output, keeps the password (and
        every other field) for the next operation. */
    method ClearFields()
      modifies this
      ensures inputText == "" && outputText == ""
      ensures password == old(password) && operationType == old(operationType)
      ensures isProcessing == old(isProcessing)
    {
      inputText := "";
      outputText := "";
    }
  }

  /** The tool used as a round trip: encrypt the input, switch the
      operation to "decrypt", put the output into the input and process
      again. Under the platform laws the output is then the original input,
      less a leading byte order mark. The Base64 output must be non-blank
      for the second run to pass the guard; AES-CBC output is never empty,
      which the platform model does not state. */
  method EncryptThenDecryptOutput(tool: EncryptTool, p: Provider)
    requires Lawful(p)
    requires tool.operationType == "encrypt"
    requires !Blank(tool.inputText) && !Blank(tool.password)
    requires EncryptWithPassword(p, tool.inputText, tool.password).Ok?
    requires !Blank(EncryptWithPassword(p, tool.inputText, tool.password).value)
    modifies tool
    ensures tool.outputText == StripBom(old(tool.inputText))
    ensures !StartsWithBom(old(tool.inputText)) ==> tool.outputText == old(tool.inputText)
    ensures tool.password == old(tool.password) && tool.operationType == "decrypt" && !tool.isProcessing
  {
    var original := tool.inputText;
    var encryptCall := tool.ProcessText(p);
    tool.SetOperationType("decrypt");
    tool.SetInputText(tool.outputText);
    var decryptCall := tool.ProcessText(p);
    RoundTrip(p, original, tool.password);
  }
}
